// The raylet worker pool: launching worker processes under the startup ceiling,
// queueing pop requests that wait for a start or a registration, handing idle
// workers to requests, the idle sweep and its exit protocol, the spill/restore
// I/O pools, jobs and drivers, and the runtime env references all of it holds.
module WorkerPool {
  import opened Wrappers
  import opened WorkerTypes
  import opened WorkerCommand
  import opened WorkerProcesses
  import opened RuntimeEnvAgents
  import opened PendingRequests
  import opened IdleKilling
  import opened PoolAccounting

  /// What launching a process came to: its startup token, the ceiling, or the
  /// runtime env agent's refusal.
  datatype StartResult = Launched(token: nat) | TooManyStarting | EnvFailed(message: string)

  /// What a worker's exit client has seen: how many exit requests, and whether the
  /// last one was forced.
  datatype ExitClient = ExitClient(exitCount: nat, lastExitForced: bool)

  /// One I/O worker pool: processes starting, workers started, idle workers and
  /// callers waiting for a worker.
  datatype IoState = IoState(starting: nat, started: set<WorkerId>, idle: seq<Worker>, waiting: nat)

  /// Every field of the pool, for whole-state postconditions.
  datatype PoolState = PoolState(
    nowMs: nat,
    numAvailableCpus: nat,
    jobs: map<JobId, JobRecord>,
    drivers: map<WorkerId, Worker>,
    pythonDriverRegistered: bool,
    procs: seq<ProcInfo>,
    pushedProcs: set<nat>,
    nextWorkerId: nat,
    pendingStart: ByLanguage<seq<PopRequest>>,
    pendingRegistration: ByLanguage<seq<PendingRegistration>>,
    registered: map<WorkerId, Worker>,
    dead: set<WorkerId>,
    disconnected: set<WorkerId>,
    idle: seq<IdleEntry>,
    pendingExit: map<WorkerId, IdleEntry>,
    clients: map<WorkerId, ExitClient>,
    spill: IoState,
    restore: IoState,
    refs: map<string, nat>)

  // ---------------------------------------------------------------------------
  // Idle list and exit bookkeeping

  /// Some entry of es is worker id's.
  predicate Names(es: seq<IdleEntry>, id: WorkerId)
  {
    exists k :: 0 <= k < |es| && es[k].worker.id == id
  }

  /// No idle entry belongs to a dead worker or to one whose exit is outstanding.
  predicate Available(idle: seq<IdleEntry>, dead: set<WorkerId>, pendingExit: map<WorkerId, IdleEntry>)
  {
    forall e :: e in idle ==> e.worker.id !in dead && e.worker.id !in pendingExit
  }

  /// The idle list names each worker once, none dead or with an exit outstanding,
  /// and every outstanding exit is filed under its worker's id.
  predicate IdleListValid(idle: seq<IdleEntry>, dead: set<WorkerId>, pendingExit: map<WorkerId, IdleEntry>)
  {
    && IdsDistinct(idle)
    && Available(idle, dead, pendingExit)
    && (forall id :: id in pendingExit ==> pendingExit[id].worker.id == id)
  }

  function ClientOf(clients: map<WorkerId, ExitClient>, id: WorkerId): ExitClient
  {
    if id in clients then clients[id] else ExitClient(0, false)
  }

  /// The entries, in order, join the workers whose exit is outstanding.
  function AddExits(pending: map<WorkerId, IdleEntry>, es: seq<IdleEntry>): (r: map<WorkerId, IdleEntry>)
    ensures forall id :: id in r <==> id in pending || Names(es, id)
    ensures (forall id :: id in pending ==> pending[id].worker.id == id) ==>
              forall id :: id in r ==> r[id].worker.id == id
    decreases |es|
  {
    if es == [] then pending
    else
      var n := |es| - 1;
      assert forall id :: Names(es, id) <==> Names(es[..n], id) || es[n].worker.id == id by {
        forall id ensures Names(es, id) ==> Names(es[..n], id) || es[n].worker.id == id {
          if Names(es, id) && es[n].worker.id != id {
            var k :| 0 <= k < |es| && es[k].worker.id == id;
            assert es[..n][k].worker.id == id;
          }
        }
        forall id ensures Names(es[..n], id) ==> Names(es, id) {
          if Names(es[..n], id) {
            var k :| 0 <= k < n && es[..n][k].worker.id == id;
            assert es[k].worker.id == id;
          }
        }
      }
      AddExits(pending, es[..n])[es[n].worker.id := es[n]]
  }

  /// The exit request an idle entry is sent: forced when its job has finished and
  /// the worker is not bound to a detached actor.
  function ExitForced(e: IdleEntry, jobFinished: bool): bool
  {
    jobFinished && e.worker.rootDetachedActor.None?
  }

  /// The entries' workers are each sent one exit request, in order.
  function SendExits(clients: map<WorkerId, ExitClient>, es: seq<IdleEntry>, jobFinished: bool): map<WorkerId, ExitClient>
    decreases |es|
  {
    if es == [] then clients
    else
      var n := |es| - 1;
      var prev := SendExits(clients, es[..n], jobFinished);
      prev[es[n].worker.id := ExitClient(ClientOf(prev, es[n].worker.id).exitCount + 1, ExitForced(es[n], jobFinished))]
  }

  /// When the entries name distinct workers, each of them is sent exactly one exit
  /// request more, forced as ExitForced says, and every other client is untouched.
  lemma {:induction false} SendExitsOnce(clients: map<WorkerId, ExitClient>, es: seq<IdleEntry>, jobFinished: bool,
                                         k: nat, id: WorkerId)
    requires IdsDistinct(es)
    requires k < |es| ==> es[k].worker.id == id
    requires k >= |es| ==> !Names(es, id)
    ensures ClientOf(SendExits(clients, es, jobFinished), id)
         == if k < |es| then ExitClient(ClientOf(clients, id).exitCount + 1, ExitForced(es[k], jobFinished))
            else ClientOf(clients, id)
    decreases |es|
  {
    if es != [] {
      var n := |es| - 1;
      assert IdsDistinct(es[..n]);
      if k < n {
        assert es[..n][k] == es[k];
        SendExitsOnce(clients, es[..n], jobFinished, k, id);
      } else if k == n {
        assert !Names(es[..n], id) by {
          forall j | 0 <= j < n ensures es[..n][j].worker.id != id {
            assert es[..n][j] == es[j];
          }
        }
        SendExitsOnce(clients, es[..n], jobFinished, |es|, id);
      } else {
        assert !Names(es[..n], id) by {
          forall j | 0 <= j < n ensures es[..n][j].worker.id != id {
            assert es[..n][j] == es[j];
          }
        }
        SendExitsOnce(clients, es[..n], jobFinished, |es|, id);
      }
    }
  }

  /// A worker that never ran a task goes to the front of the idle list (it is the
  /// cheapest to exit); one that did goes to the back.
  function IdleInsert(idle: seq<IdleEntry>, e: IdleEntry): (r: seq<IdleEntry>)
    ensures |r| == |idle| + 1
    ensures !e.worker.assignedTask ==> r[0] == e && r[1..] == idle
    ensures e.worker.assignedTask ==> r[|idle|] == e && r[..|idle|] == idle
  {
    if !e.worker.assignedTask then [e] + idle else idle + [e]
  }

  /// The idle list without worker id's entries.
  function RemoveEntriesOf(idle: seq<IdleEntry>, id: WorkerId): (r: seq<IdleEntry>)
    ensures multiset(r) <= multiset(idle)
    ensures forall x :: x in r <==> x in idle && x.worker.id != id
    decreases |idle|
  {
    if idle == [] then []
    else
      assert idle == [idle[0]] + idle[1..];
      var rest := RemoveEntriesOf(idle[1..], id);
      if idle[0].worker.id == id then rest else [idle[0]] + rest
  }

  /// Taking a worker's entries out keeps the idle list valid.
  lemma RemoveEntriesDistinct(idle: seq<IdleEntry>, id: WorkerId)
    requires IdsDistinct(idle)
    ensures IdsDistinct(RemoveEntriesOf(idle, id))
  {
    DistinctSub(RemoveEntriesOf(idle, id), idle);
  }

  /// An I/O idle list without worker id.
  function RemoveWorkerOf(ws: seq<Worker>, id: WorkerId): (r: seq<Worker>)
    ensures forall x :: x in r <==> x in ws && x.id != id
    decreases |ws|
  {
    if ws == [] then []
    else
      var rest := RemoveWorkerOf(ws[1..], id);
      if ws[0].id == id then rest else [ws[0]] + rest
  }

  /// Inserting an entry of a live worker not yet idle keeps the idle list valid.
  lemma InsertValid(idle: seq<IdleEntry>, e: IdleEntry, dead: set<WorkerId>, pendingExit: map<WorkerId, IdleEntry>)
    requires IdsDistinct(idle) && !Names(idle, e.worker.id) && Available(idle, dead, pendingExit)
    requires e.worker.id !in dead && e.worker.id !in pendingExit
    ensures IdsDistinct(IdleInsert(idle, e)) && Available(IdleInsert(idle, e), dead, pendingExit)
  {
    var r := IdleInsert(idle, e);
    assert multiset(r) == multiset(idle) + multiset{e} by {
      if !e.worker.assignedTask {
        assert r == [e] + idle;
      } else {
        assert r == idle + [e];
      }
    }
    DistinctInsert(idle, e);
  }

  lemma DistinctInsert(idle: seq<IdleEntry>, e: IdleEntry)
    requires IdsDistinct(idle) && !Names(idle, e.worker.id)
    ensures IdsDistinct(IdleInsert(idle, e))
  {
    var r := IdleInsert(idle, e);
    if !e.worker.assignedTask {
      forall i, j | 0 <= i < j < |r| ensures r[i].worker.id != r[j].worker.id {
        if i > 0 {
          assert r[i] == idle[i - 1] && r[j] == idle[j - 1];
        } else {
          assert r[j] == idle[j - 1];
        }
      }
    } else {
      forall i, j | 0 <= i < j < |r| ensures r[i].worker.id != r[j].worker.id {
        if j < |idle| {
          assert r[i] == idle[i] && r[j] == idle[j];
        } else {
          assert r[i] == idle[i];
        }
      }
    }
  }

  /// Once an entry is taken out of a list of distinct workers, its worker is gone from it.
  lemma RemovedNotNamed(idle: seq<IdleEntry>, k: nat)
    requires IdsDistinct(idle) && k < |idle|
    ensures !Names(RemoveAt(idle, k), idle[k].worker.id)
  {
    var r := RemoveAt(idle, k);
    forall j | 0 <= j < |r| ensures r[j].worker.id != idle[k].worker.id {
      if j < k {
        assert r[j] == idle[j];
      } else {
        assert r[j] == idle[j + 1];
      }
    }
  }

  /// An entry of the first part of a list of distinct workers names no worker of the others.
  lemma DistinctParts(a: seq<IdleEntry>, b: seq<IdleEntry>, c: seq<IdleEntry>, x: IdleEntry)
    requires IdsDistinct(a + b + c) && x in a
    ensures !Names(b, x.worker.id) && !Names(c, x.worker.id)
  {
    var s := a + b + c;
    var i :| 0 <= i < |a| && a[i] == x;
    assert s[i] == x;
    forall k | 0 <= k < |b| ensures b[k].worker.id != x.worker.id {
      assert s[|a| + k] == b[k];
    }
    forall k | 0 <= k < |c| ensures c[k].worker.id != x.worker.id {
      assert s[|a| + |b| + k] == c[k];
    }
  }

  lemma DistinctPrefix(a: seq<IdleEntry>, b: seq<IdleEntry>, c: seq<IdleEntry>)
    requires IdsDistinct(a + b + c)
    ensures IdsDistinct(b) && IdsDistinct(c)
  {
    var s := a + b + c;
    forall i, j | 0 <= i < j < |b| ensures b[i].worker.id != b[j].worker.id {
      assert s[|a| + i] == b[i] && s[|a| + j] == b[j];
    }
    forall i, j | 0 <= i < j < |c| ensures c[i].worker.id != c[j].worker.id {
      assert s[|a| + |b| + i] == c[i] && s[|a| + |b| + j] == c[j];
    }
  }

  /// Launching one more starting process under the ceiling keeps the accounting: the
  /// starting count goes up by one and the agent's new reference is the process's.
  lemma LaunchAccounting(refs: map<string, nat>, refs': map<string, nat>, procs: seq<ProcInfo>,
                         jobs: map<JobId, JobRecord>, p: ProcInfo)
    requires CountStarting(procs) < MAXIMUM_STARTUP_CONCURRENCY && RefBalance(refs, procs, jobs)
    requires p.state == Starting
    requires refs' == if p.holdsEnv then AfterCreate(refs, p.runtimeEnv) else refs
    ensures CountStarting(procs + [p]) == CountStarting(procs) + 1
    ensures RefBalance(refs', procs + [p], jobs)
  {
    CountIfAppend(procs, p, AnyStarting);
    BalanceLaunch(refs, procs, jobs, p);
  }

  /// The jobs that have finished.
  function FinishedJobs(jobs: map<JobId, JobRecord>): set<JobId>
  {
    set j | j in jobs && jobs[j].finished
  }

  /// No worker of the list has disconnected.
  predicate NoneDisconnected(ws: seq<Worker>, disconnected: set<WorkerId>)
  {
    forall w :: w in ws ==> w.id !in disconnected
  }

  /// An I/O pool after a process of `kind` was launched: its own kind counts one
  /// more starting process.
  function IoAfterLaunch(io: IoState, pool: WorkerKind, kind: WorkerKind): (r: IoState)
    ensures kind == pool ==> r == io.(starting := io.starting + 1)
    ensures kind != pool ==> r == io
  {
    if kind == pool then io.(starting := io.starting + 1) else io
  }

  /// An I/O pool after its worker `id` announced its port.
  function IoAfterStarted(io: IoState, id: WorkerId): (r: IoState)
    ensures r.started == io.started + {id} && r.idle == io.idle && r.waiting == io.waiting
    ensures r.starting == if io.starting > 0 then io.starting - 1 else 0
  {
    io.(started := io.started + {id}, starting := if io.starting > 0 then io.starting - 1 else 0)
  }

  /// An I/O pool after worker `id` disconnected: it is neither started nor idle any
  /// more, and when it was still starting in this pool the pool counts one less.
  function IoAfterDisconnect(io: IoState, id: WorkerId, wasStartingHere: bool): (r: IoState)
    ensures r.started == io.started - {id} && r.waiting == io.waiting
    ensures forall x :: x in r.idle <==> x in io.idle && x.id != id
    ensures r.starting == if wasStartingHere && io.starting > 0 then io.starting - 1 else io.starting
  {
    io.(idle := RemoveWorkerOf(io.idle, id), started := io.started - {id},
        starting := if wasStartingHere && io.starting > 0 then io.starting - 1 else io.starting)
  }

  /// An I/O pool whose starting process timed out.
  function IoAfterTimeout(io: IoState): (r: IoState)
    ensures r == io.(starting := if io.starting > 0 then io.starting - 1 else 0)
  {
    io.(starting := if io.starting > 0 then io.starting - 1 else 0)
  }

  /// A launch whose process then times out leaves its I/O pool as it was.
  lemma IoTimeoutUndoesLaunch(io: IoState, kind: WorkerKind)
    ensures IoAfterTimeout(IoAfterLaunch(io, kind, kind)) == io
  {
  }

  /// A launch counts in no other pool than its own.
  lemma IoLaunchOwnPoolOnly(io: IoState, pool: WorkerKind, kind: WorkerKind)
    ensures pool != kind ==> IoAfterLaunch(io, pool, kind) == io
    ensures pool == kind ==> IoAfterLaunch(io, pool, kind).starting + |IoAfterLaunch(io, pool, kind).started|
                             == io.starting + |io.started| + 1
  {
  }

  /// A starting I/O worker that announces its port moves from starting to started:
  /// the pool's size, which the I/O worker limit bounds, does not change.
  lemma IoStartedKeepsSize(io: IoState, id: WorkerId)
    requires id !in io.started && io.starting > 0
    ensures var r := IoAfterStarted(io, id);
            r.starting + |r.started| == io.starting + |io.started| && id in r.started
  {
  }

  /// Index of the oldest pending registration waiting for the process with this token.
  function FirstWithToken(regs: seq<PendingRegistration>, token: nat): (k: Option<nat>)
    ensures k.Some? ==> k.value < |regs| && regs[k.value].token == token
    ensures k.Some? ==> forall j :: 0 <= j < k.value ==> regs[j].token != token
    ensures k.None? ==> forall j :: 0 <= j < |regs| ==> regs[j].token != token
    decreases |regs|
  {
    if regs == [] then None
    else if regs[0].token == token then Some(0)
    else match FirstWithToken(regs[1..], token)
      case Some(k) => Some(k + 1)
      case None => None
  }

  /// A starting process that announced its port stops counting against the ceiling;
  /// its runtime env reference stays with it.
  lemma StartedAccounting(refs: map<string, nat>, procs: seq<ProcInfo>, jobs: map<JobId, JobRecord>, t: nat)
    requires t < |procs| && procs[t].state == Starting && RefBalance(refs, procs, jobs)
    ensures CountStarting(procs[t := procs[t].(state := Started)]) == CountStarting(procs) - 1
    ensures RefBalance(refs, procs[t := procs[t].(state := Started)], jobs)
  {
    CountIfUpdate(procs, t, procs[t].(state := Started), AnyStarting);
    BalanceUpdate(refs, procs, jobs, t, procs[t].(state := Started));
  }

  /// A process that is gone no longer counts against the ceiling and gives its
  /// runtime env reference back.
  lemma GoneAccounting(refs: map<string, nat>, procs: seq<ProcInfo>, jobs: map<JobId, JobRecord>, t: nat)
    requires t < |procs| && RefBalance(refs, procs, jobs)
    ensures var p := procs[t].(state := Gone, holdsEnv := false);
            CountStarting(procs[t := p]) == CountStarting(procs) - (if procs[t].state == Starting then 1 else 0)
    ensures var p := procs[t].(state := Gone, holdsEnv := false);
            procs[t].holdsEnv ==>
              ReferenceCount(refs, p.runtimeEnv) >= 1 && RefBalance(AfterDelete(refs, p.runtimeEnv), procs[t := p], jobs)
    ensures var p := procs[t].(state := Gone, holdsEnv := false);
            !procs[t].holdsEnv ==> RefBalance(refs, procs[t := p], jobs)
  {
    var p := procs[t].(state := Gone, holdsEnv := false);
    CountIfUpdate(procs, t, p, AnyStarting);
    BalanceUpdate(refs, procs, jobs, t, p);
  }

  /// What one sweep's exit requests do to the workers' exit clients: each worker
  /// sent an exit sees one request more, forced exactly when its job finished and it
  /// is not bound to a detached actor; every other client is untouched.
  lemma SweepExitRequests(clients: map<WorkerId, ExitClient>, r: Sweep, id: WorkerId)
    requires IdsDistinct(r.retained + r.exited + r.forced)
    ensures var c := ClientOf(SendExits(SendExits(clients, r.forced, true), r.exited, false), id);
            && (Names(r.forced, id) || Names(r.exited, id) ==> c.exitCount == ClientOf(clients, id).exitCount + 1)
            && (!Names(r.forced, id) && !Names(r.exited, id) ==> c == ClientOf(clients, id))
            && (Names(r.exited, id) ==> !c.lastExitForced)
            && (forall k :: 0 <= k < |r.forced| && r.forced[k].worker.id == id ==>
                  c.lastExitForced == r.forced[k].worker.rootDetachedActor.None?)
  {
    DistinctPrefix(r.retained, r.exited, r.forced);
    var mid := SendExits(clients, r.forced, true);
    if k :| 0 <= k < |r.forced| && r.forced[k].worker.id == id {
      SendExitsOnce(clients, r.forced, true, k, id);
      assert !Names(r.exited, id) by {
        forall j | 0 <= j < |r.exited| ensures r.exited[j].worker.id != id {
          var s := r.retained + r.exited + r.forced;
          assert s[|r.retained| + j] == r.exited[j] && s[|r.retained| + |r.exited| + k] == r.forced[k];
        }
      }
      SendExitsOnce(mid, r.exited, false, |r.exited|, id);
      forall k' | 0 <= k' < |r.forced| && r.forced[k'].worker.id == id
        ensures k' == k
      {
      }
    } else {
      SendExitsOnce(clients, r.forced, true, |r.forced|, id);
      if j :| 0 <= j < |r.exited| && r.exited[j].worker.id == id {
        SendExitsOnce(mid, r.exited, false, j, id);
      } else {
        SendExitsOnce(mid, r.exited, false, |r.exited|, id);
      }
    }
  }

  /// Splitting distinct idle entries into kept, exited and forced parts: the kept
  /// part still names distinct live workers, none of them waiting for an exit reply
  /// once the other two parts are.
  lemma PartsKeepValid(idle: seq<IdleEntry>, dead: set<WorkerId>, pendingExit: map<WorkerId, IdleEntry>,
                       kept: seq<IdleEntry>, exited: seq<IdleEntry>, forced: seq<IdleEntry>)
    requires Available(idle, dead, pendingExit)
    requires IdsDistinct(kept + exited + forced) && multiset(kept + exited + forced) <= multiset(idle)
    ensures IdsDistinct(kept) && Available(kept, dead, AddExits(AddExits(pendingExit, forced), exited))
  {
    var all := kept + exited + forced;
    assert multiset(kept) <= multiset(all) by {
      assert all == kept + (exited + forced);
    }
    DistinctSub(kept, all);
    forall e | e in kept
      ensures e.worker.id !in dead && e.worker.id !in AddExits(AddExits(pendingExit, forced), exited)
    {
      assert e in multiset(all);
      DistinctParts(kept, exited, forced, e);
    }
  }

  /// After a sweep the retained entries still name distinct live workers, none of
  /// them among the workers now waiting for an exit reply.
  lemma SweepKeepsValid(idle: seq<IdleEntry>, dead: set<WorkerId>, pendingExit: map<WorkerId, IdleEntry>,
                        finished: set<JobId>, now: nat, softLimit: nat)
    requires IdsDistinct(idle) && Available(idle, dead, pendingExit)
    ensures var r := SweepIdle(idle, dead, finished, now, softLimit);
            IdsDistinct(r.retained) && Available(r.retained, dead, AddExits(AddExits(pendingExit, r.forced), r.exited))
  {
    var r := SweepIdle(idle, dead, finished, now, softLimit);
    SweepDistinct(idle, dead, finished, now, softLimit);
    PartsKeepValid(idle, dead, pendingExit, r.retained, r.exited, r.forced);
  }

  method SweepPool(idle: seq<IdleEntry>, dead: set<WorkerId>, pendingExit: map<WorkerId, IdleEntry>,
                   clients: map<WorkerId, ExitClient>, finished: set<JobId>, now: nat, softLimit: nat)
    returns (r: Sweep, retained: seq<IdleEntry>, exits: map<WorkerId, IdleEntry>, sent: map<WorkerId, ExitClient>)
    requires IdleListValid(idle, dead, pendingExit)
    ensures r == SweepIdle(idle, dead, finished, now, softLimit)
    ensures retained == r.retained
    ensures exits == AddExits(AddExits(pendingExit, r.forced), r.exited)
    ensures sent == SendExits(SendExits(clients, r.forced, true), r.exited, false)
    ensures IdleListValid(retained, dead, exits)
  {
    r := SweepIdle(idle, dead, finished, now, softLimit);
    SweepKeepsValid(idle, dead, pendingExit, finished, now, softLimit);
    retained := r.retained;
    exits := AddExits(AddExits(pendingExit, r.forced), r.exited);
    sent := SendExits(SendExits(clients, r.forced, true), r.exited, false);
  }

  /// What a batch of launches was for: language, kind, job and runtime env.
  datatype LaunchSpec = LaunchSpec(language: Language, kind: WorkerKind, job: JobId, env: string)

  /// The launch spec of an I/O pool: Python, no job, no runtime env.
  function IoSpec(kind: WorkerKind): LaunchSpec { LaunchSpec(Python, kind, NIL_JOB, "") }

  /// A process launched as `s` says, still starting.
  predicate LaunchedAs(p: ProcInfo, s: LaunchSpec)
  {
    p.language == s.language && p.kind == s.kind && p.job == s.job && p.runtimeEnv == s.env
    && p.state == Starting
  }

  /// Every process from index `from` on was launched as `s` says.
  predicate AllLaunched(procs: seq<ProcInfo>, from: nat, s: LaunchSpec)
  {
    forall i :: from <= i < |procs| ==> LaunchedAs(procs[i], s)
  }

  lemma AppendLaunched(procs: seq<ProcInfo>, from: nat, p: ProcInfo, s: LaunchSpec)
    requires from <= |procs| && AllLaunched(procs, from, s) && LaunchedAs(p, s)
    ensures AllLaunched(procs + [p], from, s)
    ensures (procs + [p])[..from] == procs[..from]
  {
  }

  /// Forgetting a disconnected worker keeps the idle list and the I/O pools valid.
  lemma ForgetKeepsValid(idle: seq<IdleEntry>, dead: set<WorkerId>, pendingExit: map<WorkerId, IdleEntry>,
                         spill: IoState, restore: IoState, disconnected: set<WorkerId>, id: WorkerId,
                         spillStarting: bool, restoreStarting: bool)
    requires IdsDistinct(idle) && Available(idle, dead, pendingExit)
    requires NoneDisconnected(spill.idle, disconnected) && NoneDisconnected(restore.idle, disconnected)
    ensures IdsDistinct(RemoveEntriesOf(idle, id)) && Available(RemoveEntriesOf(idle, id), dead + {id}, pendingExit)
    ensures NoneDisconnected(IoAfterDisconnect(spill, id, spillStarting).idle, disconnected + {id})
    ensures NoneDisconnected(IoAfterDisconnect(restore, id, restoreStarting).idle, disconnected + {id})
  {
    RemoveEntriesDistinct(idle, id);
  }

  /// Idle workers of a language.
  function IdleOfLanguage(idle: seq<IdleEntry>, language: Language): (n: nat)
    ensures n <= |idle|
    decreases |idle|
  {
    if idle == [] then 0
    else IdleOfLanguage(idle[..|idle| - 1], language) + (if idle[|idle| - 1].worker.language == language then 1 else 0)
  }

  /// The launch spec of a prestart for tasks like `req`.
  function PrestartSpec(req: PopRequest): LaunchSpec
  {
    LaunchSpec(req.language, Regular, req.job, req.runtimeEnv)
  }

  /// The worker the test double creates for the process with token t: a regular
  /// worker of `job` whose language and runtime env hash are read back from the
  /// process's command line.
  function PushedWorker(id: WorkerId, job: JobId, t: nat, command: seq<string>): Worker
    requires ScanEnvHash(command).Some?
  {
    Worker(id, if MentionsJava(command) then Java else Python, Regular, job,
           ScanEnvHash(command).value, None, t, false)
  }

  /// The test double's CreateWorker for a process: the command line is scanned
  /// for the worker's language and runtime env hash.
  method CreateWorker(id: WorkerId, job: JobId, t: nat, command: seq<string>) returns (w: Worker)
    requires ScanEnvHash(command).Some?
    ensures w == PushedWorker(id, job, t, command)
  {
    var hash, isJava := ParseCommand(command);
    w := Worker(id, if isJava then Java else Python, Regular, job, hash.value, None, t, false);
  }

  /// A worker pushed for a Python process launched for a request can be popped by
  /// that request again: the hash read back from the command is the request's.
  lemma PushedPythonWorkerFits(base: seq<string>, t: nat, nodeId: string, id: WorkerId, req: PopRequest)
    requires forall i :: 0 <= i < |base| ==> 'h' !in base[i]
    requires 'h' !in nodeId
    requires req.language == Python && req.rootDetachedActor.None?
    requires !MentionsJava(PythonCommand(base, t, nodeId, req.envHash))
    ensures ScanEnvHash(PythonCommand(base, t, nodeId, req.envHash)) == Some(req.envHash)
    ensures Fits(PushedWorker(id, req.job, t, PythonCommand(base, t, nodeId, req.envHash)), req)
  {
    PythonCommandHash(base, t, nodeId, req.envHash);
  }

  /// A worker pushed for a Java process is a Java worker.
  lemma PushedJavaWorkerIsJava(base: seq<string>, codeSearchPath: seq<string>, jvmOptions: seq<string>,
                               t: nat, envHash: int, dynamicOptions: seq<string>, id: WorkerId, job: JobId)
    requires JAVA_MARKER in base
    requires ScanEnvHash(JavaCommand(base, codeSearchPath, jvmOptions, t, envHash, dynamicOptions)).Some?
    ensures PushedWorker(id, job, t, JavaCommand(base, codeSearchPath, jvmOptions, t, envHash, dynamicOptions)).language == Java
  {
    JavaCommandIsJava(base, codeSearchPath, jvmOptions, t, envHash, dynamicOptions);
  }

  /// A process list whose old prefix changed at most at t, to a started entry.
  lemma UpdatedPrefix(procs: seq<ProcInfo>, procs': seq<ProcInfo>, t: nat, wasStarting: bool)
    requires t < |procs| <= |procs'|
    requires procs'[..|procs|] == if wasStarting then procs[t := procs[t].(state := Started)] else procs
    ensures forall u :: 0 <= u < |procs| && u != t ==> procs'[u] == procs[u]
    ensures procs'[t].command == procs[t].command
    ensures wasStarting ==> procs'[t].state == Started
    ensures !wasStarting ==> procs'[t] == procs[t]
  {
    forall u | 0 <= u < |procs|
      ensures procs'[u] == procs'[..|procs|][u]
    {
    }
  }

  /// The test double's loop has reached token t: every token below t is marked
  /// pushed, and no token is marked that was not marked before or is not below t.
  predicate MarkedUpTo(pushed: set<nat>, pushed0: set<nat>, t: nat)
  {
    && pushed0 <= pushed
    && (forall u :: 0 <= u < t ==> u in pushed)
    && (forall u :: u in pushed ==> u in pushed0 || u < t)
  }

  lemma MarkNext(pushed: set<nat>, pushed0: set<nat>, t: nat)
    requires MarkedUpTo(pushed, pushed0, t)
    ensures MarkedUpTo(pushed + {t}, pushed0, t + 1)
  {
  }

  lemma MarkSkip(pushed: set<nat>, pushed0: set<nat>, t: nat)
    requires MarkedUpTo(pushed, pushed0, t) && t in pushed
    ensures MarkedUpTo(pushed, pushed0, t + 1)
  {
  }

  /// The test double's loop over the first n processes has reached token t:
  /// processes from t on are as they were, and each process below t that was not
  /// pushed before and was starting has started.
  predicate StartedUpTo(procs0: seq<ProcInfo>, procs: seq<ProcInfo>, pushed0: set<nat>, n: nat, t: nat)
  {
    && t <= n <= |procs0| && n <= |procs|
    && (forall u :: t <= u < n ==> procs[u] == procs0[u])
    && (forall u :: 0 <= u < t && u !in pushed0 && procs0[u].state == Starting ==> procs[u].state == Started)
  }

  lemma StartNext(procs0: seq<ProcInfo>, procs: seq<ProcInfo>, procs': seq<ProcInfo>, pushed0: set<nat>, n: nat, t: nat)
    requires t < n && StartedUpTo(procs0, procs, pushed0, n, t)
    requires |procs| <= |procs'|
    requires procs'[..|procs|] == if procs[t].state == Starting then procs[t := procs[t].(state := Started)] else procs
    ensures StartedUpTo(procs0, procs', pushed0, n, t + 1)
  {
    UpdatedPrefix(procs, procs', t, procs[t].state == Starting);
  }

  lemma StartSkip(procs0: seq<ProcInfo>, procs: seq<ProcInfo>, pushed0: set<nat>, n: nat, t: nat)
    requires t < n && StartedUpTo(procs0, procs, pushed0, n, t) && t in pushed0
    ensures StartedUpTo(procs0, procs, pushed0, n, t + 1)
  {
  }

  // ---------------------------------------------------------------------------
  // The pool

  class WorkerPool {
    /// Configuration: this node's id and the configured worker commands.
    const nodeId: string
    const pythonBase: seq<string>
    const javaBase: seq<string>
    /// The runtime env agent the pool takes and drops references through.
    const agent: RuntimeEnvAgent

    /// Clock and soft limit, both set from outside.
    var nowMs: nat
    var numAvailableCpus: nat

    var jobs: map<JobId, JobRecord>
    var drivers: map<WorkerId, Worker>
    /// Whether a Python driver has registered yet: the first one is not answered at
    /// once.
    var pythonDriverRegistered: bool

    /// Launched processes, indexed by startup token.
    var procs: seq<ProcInfo>
    /// Processes whose worker the test double has already created.
    var pushedProcs: set<nat>
    var nextWorkerId: nat

    /// Pop requests waiting for the startup ceiling, per language, oldest first.
    var pendingStart: ByLanguage<seq<PopRequest>>
    /// Pop requests waiting for the worker of a launched process, per language,
    /// oldest first.
    var pendingRegistration: ByLanguage<seq<PendingRegistration>>

    var registered: map<WorkerId, Worker>
    var dead: set<WorkerId>
    var disconnected: set<WorkerId>

    /// Idle regular workers, oldest first.
    var idle: seq<IdleEntry>
    /// Workers sent an exit request whose reply has not arrived.
    var pendingExit: map<WorkerId, IdleEntry>
    var clients: map<WorkerId, ExitClient>

    var spill: IoState
    var restore: IoState

    /// The startup ceiling holds and the agent counts exactly the references held.
    ghost predicate Accounting()
      reads this`procs, this`jobs, agent`refs
    {
      CountStarting(procs) <= MAXIMUM_STARTUP_CONCURRENCY && RefBalance(agent.refs, procs, jobs)
    }

    /// The idle list names each worker once, none dead or with an exit outstanding.
    predicate IdleValid()
      reads this`idle, this`dead, this`pendingExit
    {
      IdleListValid(idle, dead, pendingExit)
    }

    /// Disconnected workers are dead and never idle in an I/O pool.
    predicate IoValid()
      reads this`spill, this`restore, this`dead, this`disconnected
    {
      && disconnected <= dead
      && NoneDisconnected(spill.idle, disconnected)
      && NoneDisconnected(restore.idle, disconnected)
    }

    /// The queues of each language hold only requests of that language.
    predicate QueuesValid()
      reads this`pendingStart, this`pendingRegistration
    {
      ByOwnLanguage(pendingStart, pendingRegistration)
    }

    ghost predicate Valid()
      reads this`procs, this`jobs, agent`refs, this`idle, this`dead, this`pendingExit
      reads this`spill, this`restore, this`disconnected, this`pendingStart, this`pendingRegistration
    {
      Accounting() && IdleValid() && IoValid() && QueuesValid()
    }

    ghost function State(): PoolState
      reads this, agent
    {
      PoolState(nowMs, numAvailableCpus, jobs, drivers, pythonDriverRegistered, procs, pushedProcs, nextWorkerId,
                pendingStart, pendingRegistration, registered, dead, disconnected,
                idle, pendingExit, clients, spill, restore, agent.refs)
    }

    constructor(nodeId: string, pythonBase: seq<string>, javaBase: seq<string>,
                agent: RuntimeEnvAgent, numAvailableCpus: nat)
      requires agent.refs == map[]
      ensures Valid()
      ensures this.nodeId == nodeId && this.pythonBase == pythonBase && this.javaBase == javaBase
      ensures this.agent == agent && this.numAvailableCpus == numAvailableCpus
      ensures State() == PoolState(0, numAvailableCpus, map[], map[], false, [], {}, 0, ByLanguage([], []),
                                   ByLanguage([], []), map[], {}, {},
                                   [], map[], map[], IoState(0, {}, [], 0), IoState(0, {}, [], 0), map[])
    {
      this.nodeId := nodeId;
      this.pythonBase := pythonBase;
      this.javaBase := javaBase;
      this.agent := agent;
      this.numAvailableCpus := numAvailableCpus;
      nowMs := 0;
      jobs := map[];
      drivers := map[];
      pythonDriverRegistered := false;
      procs := [];
      pushedProcs := {};
      nextWorkerId := 0;
      pendingStart := ByLanguage([], []);
      pendingRegistration := ByLanguage([], []);
      registered := map[];
      dead := {};
      disconnected := {};
      idle := [];
      pendingExit := map[];
      clients := map[];
      spill := IoState(0, {}, [], 0);
      restore := IoState(0, {}, [], 0);
    }

    // -------------------------------------------------------------------------
    // Launching processes

    /// The command line of the process with this token: a Java command takes the
    /// job's code search path and JVM options (none for an unknown job).
    function CommandFor(language: Language, job: JobId, token: nat, envHash: int, dynamicOptions: seq<string>): seq<string>
      reads this`jobs
    {
      match language
      case Java =>
        var config := if job in jobs then jobs[job].config else JobConfig([], [], "", false);
        JavaCommand(javaBase, config.codeSearchPath, config.jvmOptions, token, envHash, dynamicOptions)
      case Python => PythonCommand(pythonBase, token, nodeId, envHash)
    }

    /// The process that would be launched next.
    function NextProc(language: Language, kind: WorkerKind, job: JobId, env: string, envHash: int,
                      dynamicOptions: seq<string>, keepAliveMs: Option<nat>): ProcInfo
      reads this`procs, this`jobs
    {
      ProcInfo(language, kind, job, env, envHash, CommandFor(language, job, |procs|, envHash, dynamicOptions),
               Starting, !IsEmptyEnv(env), keepAliveMs)
    }

    /// Launch a worker process. Refused at the startup ceiling; otherwise a
    /// non-empty runtime env is created first (one reference, held by the process)
    /// and a refusal of the agent fails the launch with its message.
    method StartWorkerProcess(language: Language, kind: WorkerKind, job: JobId, env: string, envHash: int,
                              dynamicOptions: seq<string>, keepAliveMs: Option<nat>)
      returns (r: StartResult)
      requires Accounting()
      modifies this`procs, agent, this`spill, this`restore
      ensures Accounting()
      ensures spill == if r.Launched? then IoAfterLaunch(old(spill), Spill, kind) else old(spill)
      ensures restore == if r.Launched? then IoAfterLaunch(old(restore), Restore, kind) else old(restore)
      ensures old(CountStarting(procs)) >= MAXIMUM_STARTUP_CONCURRENCY ==>
                r == TooManyStarting && procs == old(procs) && agent.refs == old(agent.refs)
      ensures old(CountStarting(procs)) < MAXIMUM_STARTUP_CONCURRENCY && env == BAD_RUNTIME_ENV ==>
                r == EnvFailed(BAD_RUNTIME_ENV_ERROR_MSG) && procs == old(procs) && agent.refs == old(agent.refs)
      ensures old(CountStarting(procs)) < MAXIMUM_STARTUP_CONCURRENCY && env != BAD_RUNTIME_ENV ==>
                && r == Launched(|old(procs)|)
                && procs == old(procs) + [old(NextProc(language, kind, job, env, envHash, dynamicOptions, keepAliveMs))]
                && agent.refs == (if IsEmptyEnv(env) then old(agent.refs) else AfterCreate(old(agent.refs), env))
                && CountStarting(procs) == old(CountStarting(procs)) + 1
    {
      if CountStarting(procs) >= MAXIMUM_STARTUP_CONCURRENCY {
        return TooManyStarting;
      }
      var p := NextProc(language, kind, job, env, envHash, dynamicOptions, keepAliveMs);
      if !IsEmptyEnv(env) {
        var ok, message := agent.GetOrCreate(env);
        if !ok {
          return EnvFailed(message);
        }
      }
      LaunchAccounting(old(agent.refs), agent.refs, procs, jobs, p);
      r := Launched(|procs|);
      procs := procs + [p];
      spill := IoAfterLaunch(spill, Spill, kind);
      restore := IoAfterLaunch(restore, Restore, kind);
    }


    /// Start a worker for a pop request: at the ceiling the request waits as a
    /// pending start; a refused runtime env fails it with the agent's message;
    /// otherwise it waits for the registration of the launched process.
    method StartNewWorker(req: PopRequest) returns (outs: seq<PopOutcome>)
      requires Accounting() && QueuesValid()
      modifies this`procs, this`pendingStart, this`pendingRegistration, agent, this`spill, this`restore
      ensures Accounting() && QueuesValid()
      ensures spill == old(spill) && restore == old(restore)
      ensures old(CountStarting(procs)) >= MAXIMUM_STARTUP_CONCURRENCY ==>
                && outs == []
                && pendingStart == old(pendingStart).With(req.language, old(pendingStart).Of(req.language) + [req])
                && procs == old(procs) && pendingRegistration == old(pendingRegistration)
                && agent.refs == old(agent.refs)
      ensures old(CountStarting(procs)) < MAXIMUM_STARTUP_CONCURRENCY && req.runtimeEnv == BAD_RUNTIME_ENV ==>
                && outs == [PopOutcome(req, None, RuntimeEnvCreationFailed, BAD_RUNTIME_ENV_ERROR_MSG)]
                && pendingStart == old(pendingStart) && procs == old(procs)
                && pendingRegistration == old(pendingRegistration) && agent.refs == old(agent.refs)
      ensures old(CountStarting(procs)) < MAXIMUM_STARTUP_CONCURRENCY && req.runtimeEnv != BAD_RUNTIME_ENV ==>
                && outs == [] && pendingStart == old(pendingStart)
                && procs == old(procs) + [old(NextProc(req.language, Regular, req.job, req.runtimeEnv, req.envHash,
                                                       req.dynamicOptions, req.keepAliveMs))]
                && pendingRegistration == old(pendingRegistration).With(req.language,
                     old(pendingRegistration).Of(req.language) + [PendingRegistration(req, |old(procs)|)])
                && CountStarting(procs) == old(CountStarting(procs)) + 1
    {
      var l := req.language;
      QueuedOf(pendingStart, pendingRegistration, l);
      var r := StartWorkerProcess(l, Regular, req.job, req.runtimeEnv, req.envHash,
                                  req.dynamicOptions, req.keepAliveMs);
      match r
      case TooManyStarting =>
        ByOwnLanguageWith(pendingStart, pendingRegistration, l, pendingStart.Of(l) + [req], pendingRegistration.Of(l));
        pendingStart := pendingStart.With(l, pendingStart.Of(l) + [req]);
        outs := [];
      case EnvFailed(message) =>
        outs := [PopOutcome(req, None, RuntimeEnvCreationFailed, message)];
      case Launched(token) =>
        ByOwnLanguageWith(pendingStart, pendingRegistration, l, pendingStart.Of(l),
                          pendingRegistration.Of(l) + [PendingRegistration(req, token)]);
        pendingRegistration := pendingRegistration.With(l, pendingRegistration.Of(l) + [PendingRegistration(req, token)]);
        outs := [];
    }

    /// Issue the pending starts of one language, oldest first, while the ceiling
    /// (shared by all languages) allows. Every request taken from the queue either
    /// waits for its registration or is failed; the other language's queues are
    /// left alone.
    method TryPendingStarts(lang: Language) returns (served: nat, failed: seq<PopOutcome>)
      requires Accounting() && QueuesValid()
      modifies this`procs, this`pendingStart, this`pendingRegistration, agent, this`spill, this`restore
      ensures Accounting() && QueuesValid()
      ensures spill == old(spill) && restore == old(restore)
      ensures |old(procs)| <= |procs| && procs[..|old(procs)|] == old(procs)
      ensures served <= |old(pendingStart).Of(lang)|
      ensures pendingStart == old(pendingStart).With(lang, old(pendingStart).Of(lang)[served..])
      ensures old(pendingStart).Of(lang) != [] && old(CountStarting(procs)) < MAXIMUM_STARTUP_CONCURRENCY ==> served >= 1
      ensures pendingStart.Of(lang) != [] ==> CountStarting(procs) == MAXIMUM_STARTUP_CONCURRENCY
      ensures pendingRegistration == old(pendingRegistration).With(lang, pendingRegistration.Of(lang))
      ensures var regs, now := old(pendingRegistration).Of(lang), pendingRegistration.Of(lang);
              && |regs| <= |now| && now[..|regs|] == regs
              && |now| - |regs| + |failed| == served
              && forall i :: |regs| <= i < |now| ==> now[i].request in old(pendingStart).Of(lang)[..served]
      ensures forall o :: o in failed ==>
                o.status == RuntimeEnvCreationFailed && o.request in old(pendingStart).Of(lang)[..served]
    {
      ghost var starts0, regs0 := pendingStart, pendingRegistration;
      ghost var queue, regs := pendingStart.Of(lang), pendingRegistration.Of(lang);
      ghost var procs0 := procs;
      served, failed := 0, [];
      while pendingStart.Of(lang) != [] && CountStarting(procs) < MAXIMUM_STARTUP_CONCURRENCY
        invariant Accounting() && QueuesValid()
        invariant spill == old(spill) && restore == old(restore)
        invariant |procs0| <= |procs| && procs[..|procs0|] == procs0
        invariant served == 0 ==> procs == procs0
        invariant served <= |queue| && pendingStart == starts0.With(lang, queue[served..])
        invariant pendingRegistration == regs0.With(lang, pendingRegistration.Of(lang))
        invariant |regs| <= |pendingRegistration.Of(lang)| && pendingRegistration.Of(lang)[..|regs|] == regs
        invariant |pendingRegistration.Of(lang)| - |regs| + |failed| == served
        invariant forall o :: o in failed ==> o.status == RuntimeEnvCreationFailed && o.request in queue[..served]
        invariant forall i :: |regs| <= i < |pendingRegistration.Of(lang)| ==>
                    pendingRegistration.Of(lang)[i].request in queue[..served]
        decreases |pendingStart.Of(lang)|
      {
        ghost var before := procs;
        var req, outs := StartOldest(lang);
        assert queue[..served + 1] == queue[..served] + [req];
        assert procs[..|procs0|] == procs0 by {
          assert procs[..|before|] == before;
        }
        failed := failed + outs;
        served := served + 1;
      }
    }

    /// One step of TryPendingStarts: the oldest pending start of language lang,
    /// below the ceiling, leaves its queue and either waits for the registration of
    /// a launched process or is failed.
    method StartOldest(lang: Language) returns (req: PopRequest, outs: seq<PopOutcome>)
      requires Accounting() && QueuesValid()
      requires pendingStart.Of(lang) != [] && CountStarting(procs) < MAXIMUM_STARTUP_CONCURRENCY
      modifies this`procs, this`pendingStart, this`pendingRegistration, agent, this`spill, this`restore
      ensures Accounting() && QueuesValid()
      ensures spill == old(spill) && restore == old(restore)
      ensures req == old(pendingStart).Of(lang)[0]
      ensures pendingStart == old(pendingStart).With(lang, old(pendingStart).Of(lang)[1..])
      ensures |old(procs)| <= |procs| && procs[..|old(procs)|] == old(procs)
      ensures || (outs == [] && pendingRegistration == old(pendingRegistration).With(lang,
                    old(pendingRegistration).Of(lang) + [PendingRegistration(req, |old(procs)|)]))
              || (outs == [PopOutcome(req, None, RuntimeEnvCreationFailed, BAD_RUNTIME_ENV_ERROR_MSG)]
                  && pendingRegistration == old(pendingRegistration))
    {
      req := pendingStart.Of(lang)[0];
      QueuedOf(pendingStart, pendingRegistration, lang);
      assert req.language == lang;
      ByOwnLanguageWith(pendingStart, pendingRegistration, lang, pendingStart.Of(lang)[1..], pendingRegistration.Of(lang));
      pendingStart := pendingStart.With(lang, pendingStart.Of(lang)[1..]);
      outs := StartNewWorker(req);
    }

    // -------------------------------------------------------------------------
    // Handing out and taking back workers

    function JobFinishedOf(job: JobId): bool
      reads this`jobs
    {
      job in jobs && jobs[job].finished
    }

    /// The idle entry of a worker pushed now: protected for the default grace period,
    /// or for its process's startup keep-alive when that is longer and the worker
    /// never ran a task.
    function EntryFor(w: Worker): (e: IdleEntry)
      reads this`nowMs, this`procs
      ensures e.worker == w && e.keepAliveUntil >= nowMs + IDLE_WORKER_KILLING_TIME_THRESHOLD_MS
      ensures !w.assignedTask && w.token < |procs| && procs[w.token].keepAliveMs.Some? ==>
                e.keepAliveUntil >= nowMs + procs[w.token].keepAliveMs.value
      // and it is no later than the later of the deadlines that apply
      ensures || e.keepAliveUntil == nowMs + IDLE_WORKER_KILLING_TIME_THRESHOLD_MS
              || (&& !w.assignedTask && w.token < |procs| && procs[w.token].keepAliveMs.Some?
                  && e.keepAliveUntil == nowMs + procs[w.token].keepAliveMs.value)
    {
      var grace := nowMs + IDLE_WORKER_KILLING_TIME_THRESHOLD_MS;
      var keepAlive := if !w.assignedTask && w.token < |procs| && procs[w.token].keepAliveMs.Some?
                       then nowMs + procs[w.token].keepAliveMs.value else 0;
      IdleEntry(w, if keepAlive > grace then keepAlive else grace)
    }

    /// Return a worker. A dead worker, one already idle and one whose exit is
    /// outstanding are ignored. Otherwise it is offered to the waiting requests
    /// (pending registrations first, then pending starts, oldest first); when no
    /// request takes it, it becomes idle.
    method PushWorker(w: Worker) returns (outs: seq<PopOutcome>)
      requires IdleValid() && QueuesValid()
      modifies this`pendingRegistration, this`pendingStart, this`idle
      ensures IdleValid() && QueuesValid()
      ensures w.id in dead || Names(old(idle), w.id) || w.id in pendingExit ==>
                outs == [] && idle == old(idle)
                && pendingRegistration == old(pendingRegistration) && pendingStart == old(pendingStart)
      ensures !(w.id in dead || Names(old(idle), w.id) || w.id in pendingExit) ==>
                var l := w.language;
                var o := Offer(w, JobFinishedOf(w.job), old(pendingRegistration).Of(l), old(pendingStart).Of(l));
                && outs == o.outcomes
                && pendingRegistration == old(pendingRegistration).With(l, o.regs)
                && pendingStart == old(pendingStart).With(l, o.starts)
                && idle == if o.taken then old(idle) else IdleInsert(old(idle), EntryFor(w))
    {
      if w.id in dead || Names(idle, w.id) || w.id in pendingExit {
        return [];
      }
      var o := OfferToQueues(w);
      outs := o.outcomes;
      if !o.taken {
        InsertValid(idle, EntryFor(w), dead, pendingExit);
        idle := IdleInsert(idle, EntryFor(w));
      }
    }

    /// Offer worker w to the queues of its language, which keep what the offer
    /// leaves.
    method OfferToQueues(w: Worker) returns (o: OfferResult)
      requires QueuesValid()
      modifies this`pendingRegistration, this`pendingStart
      ensures QueuesValid()
      ensures var l := w.language;
              && o == Offer(w, JobFinishedOf(w.job), old(pendingRegistration).Of(l), old(pendingStart).Of(l))
              && pendingRegistration == old(pendingRegistration).With(l, o.regs)
              && pendingStart == old(pendingStart).With(l, o.starts)
    {
      var l := w.language;
      o := Offer(w, JobFinishedOf(w.job), pendingRegistration.Of(l), pendingStart.Of(l));
      QueuedOf(pendingStart, pendingRegistration, l);
      OfferKeepsLanguage(w, JobFinishedOf(w.job), pendingRegistration.Of(l), pendingStart.Of(l), l);
      ByOwnLanguageWith(pendingStart, pendingRegistration, l, o.starts, o.regs);
      pendingRegistration := pendingRegistration.With(l, o.regs);
      pendingStart := pendingStart.With(l, o.starts);
    }

    /// Hand the idle entry at k to a request; a declined worker is pushed back.
    method PopIdle(k: nat, req: PopRequest) returns (outs: seq<PopOutcome>)
      requires IdleValid() && QueuesValid() && k < |idle|
      modifies this`pendingStart, this`pendingRegistration, this`idle
      ensures IdleValid() && QueuesValid()
      ensures var w := old(idle)[k].worker;
              var rest := RemoveAt(old(idle), k);
              && (req.accepts ==>
                    outs == [PopOutcome(req, Some(w), OK, "")] && idle == rest
                    && pendingRegistration == old(pendingRegistration) && pendingStart == old(pendingStart))
              && (!req.accepts ==>
                    var l := w.language;
                    var o := Offer(w, JobFinishedOf(w.job), old(pendingRegistration).Of(l), old(pendingStart).Of(l));
                    && outs == [PopOutcome(req, Some(w), OK, "")] + o.outcomes
                    && pendingRegistration == old(pendingRegistration).With(l, o.regs)
                    && pendingStart == old(pendingStart).With(l, o.starts)
                    && idle == if o.taken then rest else IdleInsert(rest, EntryFor(w)))
    {
      var w := idle[k].worker;
      RemovedNotNamed(idle, k);
      RemoveAtMultiset(idle, k);
      DistinctSub(RemoveAt(idle, k), idle);
      idle := RemoveAt(idle, k);
      outs := [PopOutcome(req, Some(w), OK, "")];
      if !req.accepts {
        var more := PushWorker(w);
        outs := outs + more;
      }
    }

    /// Pop a worker for a request whose job is known (or nil) and not finished: the
    /// most recently idled fitting worker is handed over (and pushed back when the
    /// request declines it); without one, a new worker is started for the request.
    method PopFit(req: PopRequest) returns (outs: seq<PopOutcome>)
      requires Valid()
      modifies this`procs, this`pendingStart, this`pendingRegistration, this`idle, agent, this`spill, this`restore
      ensures Valid()
      ensures spill == old(spill) && restore == old(restore)
      ensures match LastFit(old(idle), req, dead)
              case Some(k) =>
                var w := old(idle)[k].worker;
                var rest := RemoveAt(old(idle), k);
                && procs == old(procs) && agent.refs == old(agent.refs)
                && (req.accepts ==>
                      outs == [PopOutcome(req, Some(w), OK, "")] && idle == rest
                      && pendingRegistration == old(pendingRegistration) && pendingStart == old(pendingStart))
                && (!req.accepts ==>
                      var l := w.language;
                      var o := Offer(w, JobFinishedOf(w.job), old(pendingRegistration).Of(l), old(pendingStart).Of(l));
                      && outs == [PopOutcome(req, Some(w), OK, "")] + o.outcomes
                      && pendingRegistration == old(pendingRegistration).With(l, o.regs)
                      && pendingStart == old(pendingStart).With(l, o.starts)
                      && idle == if o.taken then rest else IdleInsert(rest, EntryFor(w)))
              case None =>
                && idle == old(idle)
                && (old(CountStarting(procs)) >= MAXIMUM_STARTUP_CONCURRENCY ==>
                      outs == []
                      && pendingStart == old(pendingStart).With(req.language, old(pendingStart).Of(req.language) + [req])
                      && pendingRegistration == old(pendingRegistration))
                && (old(CountStarting(procs)) < MAXIMUM_STARTUP_CONCURRENCY && req.runtimeEnv == BAD_RUNTIME_ENV ==>
                      outs == [PopOutcome(req, None, RuntimeEnvCreationFailed, BAD_RUNTIME_ENV_ERROR_MSG)]
                      && pendingStart == old(pendingStart) && pendingRegistration == old(pendingRegistration))
                && (old(CountStarting(procs)) < MAXIMUM_STARTUP_CONCURRENCY && req.runtimeEnv != BAD_RUNTIME_ENV ==>
                      outs == [] && pendingStart == old(pendingStart)
                      && pendingRegistration == old(pendingRegistration).With(req.language,
                           old(pendingRegistration).Of(req.language) + [PendingRegistration(req, |old(procs)|)]))
    {
      var k := LastFit(idle, req, dead);
      if k.Some? {
        outs := PopIdle(k.value, req);
      } else {
        outs := StartNewWorker(req);
      }
    }

    /// Pop a worker for a request. An unknown job or a finished one fails it and
    /// changes nothing; otherwise the request is served as PopFit says.
    method PopWorker(req: PopRequest) returns (outs: seq<PopOutcome>)
      requires Valid()
      modifies this`procs, this`pendingStart, this`pendingRegistration, this`idle, agent, this`spill, this`restore
      ensures Valid()
      ensures spill == old(spill) && restore == old(restore)
      ensures (req.job != NIL_JOB && req.job !in jobs) || JobFinishedOf(req.job) ==>
                && outs == [PopOutcome(req, None, if req.job in jobs then JobFinished else JobConfigMissing, "")]
                && procs == old(procs) && pendingStart == old(pendingStart)
                && pendingRegistration == old(pendingRegistration) && idle == old(idle)
                && agent.refs == old(agent.refs)
    {
      if req.job != NIL_JOB && req.job !in jobs {
        return [PopOutcome(req, None, JobConfigMissing, "")];
      }
      if JobFinishedOf(req.job) {
        return [PopOutcome(req, None, JobFinished, "")];
      }
      outs := PopFit(req);
    }

    // -------------------------------------------------------------------------
    // Registration and the life of a worker process

    /// A startup token of a launched process the pool still keeps.
    predicate KnownToken(token: int)
      reads this`procs
    {
      0 <= token < |procs| && procs[token].state != Gone
    }

    /// The registered worker with this id (by connection or by id: the model keeps
    /// one index), if any.
    function GetRegisteredWorker(id: WorkerId): (r: Option<Worker>)
      reads this`registered
      ensures r.Some? <==> id in registered
      ensures r.Some? ==> r.value == registered[id]
    {
      if id in registered then Some(registered[id]) else None
    }

    /// Register a worker under the startup token of its process. An unknown token is
    /// rejected; registering frees no startup slot.
    method RegisterWorker(w: Worker, token: int) returns (ok: bool)
      modifies this`registered
      ensures ok <==> KnownToken(token)
      ensures ok ==> registered == old(registered)[w.id := w.(token := token as nat)]
                     && GetRegisteredWorker(w.id) == Some(w.(token := token as nat))
      ensures !ok ==> registered == old(registered)
      ensures CountStarting(procs) == old(CountStarting(procs))
    {
      if !KnownToken(token) {
        return false;
      }
      registered := registered[w.id := w.(token := token as nat)];
      ok := true;
    }

    /// The worker announced its port: its process stops counting against the startup
    /// ceiling and the freed slot goes to the oldest pending starts of the worker's
    /// language; an I/O worker joins its pool's started set.
    method OnWorkerStarted(w: Worker) returns (served: nat, failed: seq<PopOutcome>)
      requires Accounting() && QueuesValid()
      modifies this`procs, this`pendingStart, this`pendingRegistration, agent, this`spill, this`restore
      ensures Accounting() && QueuesValid()
      ensures var t, l := w.token, w.language;
              var wasStarting := t < |old(procs)| && old(procs)[t].state == Starting;
              && |old(procs)| <= |procs|
              && procs[..|old(procs)|] == (if wasStarting then old(procs)[t := old(procs)[t].(state := Started)] else old(procs))
              && served <= |old(pendingStart).Of(l)|
              && pendingStart == old(pendingStart).With(l, old(pendingStart).Of(l)[served..])
              && pendingRegistration == old(pendingRegistration).With(l, pendingRegistration.Of(l))
              && (wasStarting && old(pendingStart).Of(l) != [] ==> served >= 1)
              && (!wasStarting ==> procs == old(procs) && served == 0 && failed == []
                                   && pendingRegistration == old(pendingRegistration))
      ensures spill == if w.kind == Spill then IoAfterStarted(old(spill), w.id) else old(spill)
      ensures restore == if w.kind == Restore then IoAfterStarted(old(restore), w.id) else old(restore)
    {
      served, failed := 0, [];
      var t := w.token;
      if t < |procs| && procs[t].state == Starting {
        StartedAccounting(agent.refs, procs, jobs, t);
        procs := procs[t := procs[t].(state := Started)];
        served, failed := TryPendingStarts(w.language);
      }
      if w.kind == Spill {
        spill := IoAfterStarted(spill, w.id);
      } else if w.kind == Restore {
        restore := IoAfterStarted(restore, w.id);
      }
    }

    /// The process with token t is gone: it no longer counts against the ceiling and
    /// its runtime env reference, if it holds one, is deleted through the agent.
    method ReleaseProcess(t: nat) returns (wasStarting: bool)
      requires Accounting() && t < |procs| && procs[t].state != Gone
      modifies this`procs, agent
      ensures Accounting()
      ensures wasStarting == (old(procs)[t].state == Starting)
      ensures procs == old(procs)[t := old(procs)[t].(state := Gone, holdsEnv := false)]
      ensures CountStarting(procs) == old(CountStarting(procs)) - (if wasStarting then 1 else 0)
      ensures old(procs)[t].holdsEnv ==> ReferenceCount(old(agent.refs), old(procs)[t].runtimeEnv) >= 1
      ensures agent.refs == if old(procs)[t].holdsEnv then AfterDelete(old(agent.refs), old(procs)[t].runtimeEnv)
                            else old(agent.refs)
    {
      wasStarting := procs[t].state == Starting;
      GoneAccounting(agent.refs, procs, jobs, t);
      if procs[t].holdsEnv {
        agent.Delete(procs[t].runtimeEnv);
      }
      procs := procs[t := procs[t].(state := Gone, holdsEnv := false)];
    }

    /// The process side of a disconnect: a process still known is released, and when
    /// it was still starting its slot goes to the pending starts of the worker's
    /// language `lang`.
    method ReleaseForDisconnect(t: nat, lang: Language) returns (wasStarting: bool, served: nat, failed: seq<PopOutcome>)
      requires Accounting() && QueuesValid()
      modifies this`procs, this`pendingStart, this`pendingRegistration, agent, this`spill, this`restore
      ensures Accounting() && QueuesValid()
      ensures spill == old(spill) && restore == old(restore)
      ensures var known := t < |old(procs)| && old(procs)[t].state != Gone;
              && wasStarting == (known && old(procs)[t].state == Starting)
              && |old(procs)| <= |procs|
              && procs[..|old(procs)|] == (if known then old(procs)[t := old(procs)[t].(state := Gone, holdsEnv := false)]
                                           else old(procs))
              && served <= |old(pendingStart).Of(lang)|
              && pendingStart == old(pendingStart).With(lang, old(pendingStart).Of(lang)[served..])
              && pendingRegistration == old(pendingRegistration).With(lang, pendingRegistration.Of(lang))
              && (wasStarting && old(pendingStart).Of(lang) != [] ==> served >= 1)
              && (!wasStarting ==> procs[..|old(procs)|] == procs && served == 0 && failed == []
                                   && pendingRegistration == old(pendingRegistration))
              && (known && old(procs)[t].holdsEnv ==> ReferenceCount(old(agent.refs), old(procs)[t].runtimeEnv) >= 1)
              && (known && !wasStarting ==>
                    agent.refs == if old(procs)[t].holdsEnv then AfterDelete(old(agent.refs), old(procs)[t].runtimeEnv)
                                  else old(agent.refs))
              && (!known ==> agent.refs == old(agent.refs))
    {
      served, failed := 0, [];
      wasStarting := false;
      if t < |procs| && procs[t].state != Gone {
        wasStarting := ReleaseProcess(t);
        if wasStarting {
          served, failed := TryPendingStarts(lang);
        }
      }
    }

    /// A worker disconnected: it is unregistered, dead, and taken out of the idle list
    /// and the I/O pools; its process is gone and drops its runtime env reference, and
    /// when the process was still starting the freed slot goes to the pending starts
    /// of its language.
    method DisconnectWorker(w: Worker) returns (served: nat, failed: seq<PopOutcome>)
      requires Valid()
      modifies this`procs, this`pendingStart, this`pendingRegistration, agent, this`spill, this`restore,
               this`registered, this`dead, this`disconnected, this`idle
      ensures Valid()
      ensures registered == old(registered) - {w.id} && GetRegisteredWorker(w.id).None?
      ensures dead == old(dead) + {w.id} && disconnected == old(disconnected) + {w.id}
      ensures idle == RemoveEntriesOf(old(idle), w.id)
      ensures var t := w.token;
              var known := t < |old(procs)| && old(procs)[t].state != Gone;
              var wasStarting := known && old(procs)[t].state == Starting;
              && |old(procs)| <= |procs|
              && procs[..|old(procs)|] == (if known then old(procs)[t := old(procs)[t].(state := Gone, holdsEnv := false)]
                                           else old(procs))
              && served <= |old(pendingStart).Of(w.language)|
              && pendingStart == old(pendingStart).With(w.language, old(pendingStart).Of(w.language)[served..])
              && pendingRegistration == old(pendingRegistration).With(w.language, pendingRegistration.Of(w.language))
              && (wasStarting && old(pendingStart).Of(w.language) != [] ==> served >= 1)
              && (!wasStarting ==> procs[..|old(procs)|] == procs && served == 0 && failed == []
                                   && pendingRegistration == old(pendingRegistration))
              && (known && old(procs)[t].holdsEnv ==> ReferenceCount(old(agent.refs), old(procs)[t].runtimeEnv) >= 1)
              && (known && !wasStarting ==>
                    agent.refs == if old(procs)[t].holdsEnv then AfterDelete(old(agent.refs), old(procs)[t].runtimeEnv)
                                  else old(agent.refs))
              && (!known ==> agent.refs == old(agent.refs))
              && spill == IoAfterDisconnect(old(spill), w.id, wasStarting && w.kind == Spill)
              && restore == IoAfterDisconnect(old(restore), w.id, wasStarting && w.kind == Restore)
    {
      var wasStarting;
      wasStarting, served, failed := ReleaseForDisconnect(w.token, w.language);
      ForgetWorker(w, wasStarting);
    }

    /// Everything a disconnect changes besides the worker's process.
    method ForgetWorker(w: Worker, wasStarting: bool)
      requires IdleValid() && IoValid()
      modifies this`spill, this`restore, this`registered, this`dead, this`disconnected, this`idle
      ensures IdleValid() && IoValid()
      ensures registered == old(registered) - {w.id}
      ensures dead == old(dead) + {w.id} && disconnected == old(disconnected) + {w.id}
      ensures idle == RemoveEntriesOf(old(idle), w.id)
      ensures spill == IoAfterDisconnect(old(spill), w.id, wasStarting && w.kind == Spill)
      ensures restore == IoAfterDisconnect(old(restore), w.id, wasStarting && w.kind == Restore)
    {
      var idle0, dead0, spill0, restore0, disconnected0 := idle, dead, spill, restore, disconnected;
      var spillStarting, restoreStarting := wasStarting && w.kind == Spill, wasStarting && w.kind == Restore;
      ForgetKeepsValid(idle0, dead0, pendingExit, spill0, restore0, disconnected0, w.id, spillStarting, restoreStarting);
      var idle1 := RemoveEntriesOf(idle0, w.id);
      var dead1 := dead0 + {w.id};
      assert IdsDistinct(idle1) && Available(idle1, dead1, pendingExit);
      spill := IoAfterDisconnect(spill0, w.id, spillStarting);
      restore := IoAfterDisconnect(restore0, w.id, restoreStarting);
      registered := registered - {w.id};
      dead := dead1;
      disconnected := disconnected0 + {w.id};
      idle := idle1;
    }

    /// No worker registered for the process with this token in time. A process still
    /// starting is given up (its slot goes to the pending starts of its language, its
    /// runtime env reference is dropped) and, for a regular worker, the oldest request
    /// waiting for it is failed with WorkerPendingRegistration and erased.
    method RegistrationTimeout(token: nat) returns (outs: seq<PopOutcome>)
      requires Accounting() && QueuesValid()
      modifies this`procs, this`pendingStart, this`pendingRegistration, agent, this`spill, this`restore
      ensures Accounting() && QueuesValid()
      ensures !(token < |old(procs)| && old(procs)[token].state == Starting) ==>
                outs == [] && procs == old(procs) && pendingStart == old(pendingStart)
                && pendingRegistration == old(pendingRegistration) && agent.refs == old(agent.refs)
                && spill == old(spill) && restore == old(restore)
      ensures token < |old(procs)| && old(procs)[token].state == Starting ==>
                var p := old(procs)[token];
                var l := p.language;
                var regs := old(pendingRegistration).Of(l);
                var k := FirstWithToken(regs, token);
                && |old(procs)| <= |procs|
                && procs[..|old(procs)|] == old(procs)[token := p.(state := Gone, holdsEnv := false)]
                && spill == (if p.kind == Spill then IoAfterTimeout(old(spill)) else old(spill))
                && restore == (if p.kind == Restore then IoAfterTimeout(old(restore)) else old(restore))
                && (exists served :: 0 <= served <= |old(pendingStart).Of(l)|
                                     && pendingStart == old(pendingStart).With(l, old(pendingStart).Of(l)[served..])
                                     && (old(pendingStart).Of(l) != [] ==> served >= 1))
                && pendingRegistration == old(pendingRegistration).With(l, pendingRegistration.Of(l))
                && (p.kind == Regular && k.Some? ==>
                      && |outs| >= 1
                      && outs[|outs| - 1] == PopOutcome(regs[k.value].request, None, WorkerPendingRegistration, "")
                      && |regs| - 1 <= |pendingRegistration.Of(l)|
                      && pendingRegistration.Of(l)[..|regs| - 1] == RemoveAt(regs, k.value))
                && (!(p.kind == Regular && k.Some?) ==>
                      |regs| <= |pendingRegistration.Of(l)| && pendingRegistration.Of(l)[..|regs|] == regs)
    {
      outs := [];
      if !(token < |procs| && procs[token].state == Starting) {
        return;
      }
      var kind, l := procs[token].kind, procs[token].language;
      var _ := ReleaseProcess(token);
      if kind == Spill {
        spill := IoAfterTimeout(spill);
      } else if kind == Restore {
        restore := IoAfterTimeout(restore);
      }
      var timedOut: seq<PopOutcome> := [];
      if kind == Regular {
        var regs := pendingRegistration.Of(l);
        var k := FirstWithToken(regs, token);
        if k.Some? {
          timedOut := [PopOutcome(regs[k.value].request, None, WorkerPendingRegistration, "")];
          QueuedOf(pendingStart, pendingRegistration, l);
          ByOwnLanguageWith(pendingStart, pendingRegistration, l, pendingStart.Of(l), RemoveAt(regs, k.value));
          pendingRegistration := pendingRegistration.With(l, RemoveAt(regs, k.value));
        }
      }
      var served, failed := TryPendingStarts(l);
      outs := failed + timedOut;
    }

    // -------------------------------------------------------------------------
    // The idle sweep and its exit protocol

    /// One idle sweep. Idle workers of finished jobs are sent an exit, forced unless
    /// bound to a detached actor; then the oldest killable workers beyond the soft
    /// limit (the available CPUs) a graceful one. Every worker sent an exit leaves the
    /// idle list at once and waits for its reply.
    method TryKillingIdleWorkers() returns (r: Sweep)
      requires IdleValid()
      modifies this`idle, this`pendingExit, this`clients
      ensures IdleValid()
      ensures r == SweepIdle(old(idle), dead, FinishedJobs(jobs), nowMs, numAvailableCpus)
      ensures idle == r.retained
      ensures pendingExit == AddExits(AddExits(old(pendingExit), r.forced), r.exited)
      ensures clients == SendExits(SendExits(old(clients), r.forced, true), r.exited, false)
    {
      var finished := FinishedJobs(jobs);
      var retained, exits, sent;
      r, retained, exits, sent := SweepPool(idle, dead, pendingExit, clients, finished, nowMs, numAvailableCpus);
      idle, pendingExit, clients := retained, exits, sent;
    }

    /// The reply to an outstanding exit request. A success marks the worker dead; a
    /// failure puts its entry back at the end of the idle list unless the worker died
    /// meanwhile. A reply for a worker with no outstanding exit changes nothing.
    method ExitReply(id: WorkerId, success: bool) returns (replied: bool)
      requires IdleValid() && IoValid()
      modifies this`pendingExit, this`dead, this`idle
      ensures IdleValid() && IoValid()
      ensures replied <==> id in old(pendingExit)
      ensures !replied ==> pendingExit == old(pendingExit) && dead == old(dead) && idle == old(idle)
      ensures replied ==> pendingExit == old(pendingExit) - {id}
      ensures replied && success ==> dead == old(dead) + {id} && idle == old(idle)
      ensures replied && !success ==>
                && dead == old(dead)
                && idle == if id in old(dead) then old(idle) else old(idle) + [old(pendingExit)[id]]
    {
      if id !in pendingExit {
        return false;
      }
      replied := true;
      var e := pendingExit[id];
      pendingExit := pendingExit - {id};
      if success {
        dead := dead + {id};
      } else if id !in dead {
        assert !Names(idle, id) by {
          forall k | 0 <= k < |idle| ensures idle[k].worker.id != id {
            assert idle[k] in idle;
          }
        }
        forall i, j | 0 <= i < j < |idle + [e]| ensures (idle + [e])[i].worker.id != (idle + [e])[j].worker.id {
          if j == |idle| {
            assert (idle + [e])[i] == idle[i];
          } else {
            assert (idle + [e])[i] == idle[i] && (idle + [e])[j] == idle[j];
          }
        }
        idle := idle + [e];
      }
    }

    // -------------------------------------------------------------------------
    // Jobs and drivers

    /// A job start. A job already known is left as it is; otherwise its record is
    /// kept, and an eager-install runtime env is created at once, the job holding
    /// that reference (the agent refuses the bad env, and then nothing is held).
    method HandleJobStarted(job: JobId, config: JobConfig)
      requires Accounting()
      modifies this`jobs, agent
      ensures Accounting()
      ensures job in old(jobs) ==> jobs == old(jobs) && agent.refs == old(agent.refs)
      ensures job !in old(jobs) ==>
                var eager := config.eagerInstall && !IsEmptyEnv(config.runtimeEnv)
                             && config.runtimeEnv != BAD_RUNTIME_ENV;
                && jobs == old(jobs)[job := JobRecord(config, false, eager)]
                && agent.refs == if eager then AfterCreate(old(agent.refs), config.runtimeEnv) else old(agent.refs)
    {
      if job in jobs {
        return;
      }
      var eager := false;
      if config.eagerInstall && !IsEmptyEnv(config.runtimeEnv) {
        var ok, _ := agent.GetOrCreate(config.runtimeEnv);
        eager := ok;
      }
      var rec := JobRecord(config, false, eager);
      BalanceJobAdd(old(agent.refs), procs, jobs, job, rec);
      jobs := jobs[job := rec];
    }

    /// A job finish. The job is marked finished and the eager reference it holds is
    /// deleted. Its idle workers are left to the next sweep and its waiting requests
    /// to the next push; an unknown job changes nothing.
    method HandleJobFinished(job: JobId)
      requires Accounting()
      modifies this`jobs, agent
      ensures Accounting()
      ensures job !in old(jobs) ==> jobs == old(jobs) && agent.refs == old(agent.refs)
      ensures job in old(jobs) ==>
                var rec := old(jobs)[job];
                && jobs == old(jobs)[job := rec.(finished := true, eagerHeld := false)]
                && JobFinishedOf(job)
                && (rec.eagerHeld ==> ReferenceCount(old(agent.refs), rec.config.runtimeEnv) >= 1)
                && agent.refs == if rec.eagerHeld then AfterDelete(old(agent.refs), rec.config.runtimeEnv)
                                 else old(agent.refs)
    {
      if job !in jobs {
        return;
      }
      var rec := jobs[job];
      BalanceJobFinish(agent.refs, procs, jobs, job);
      if rec.eagerHeld {
        agent.Delete(rec.config.runtimeEnv);
      }
      jobs := jobs[job := rec.(finished := true, eagerHeld := false)];
    }

    /// The registered driver with this id, if any.
    function GetRegisteredDriver(id: WorkerId): (r: Option<Worker>)
      reads this`drivers
      ensures r.Some? <==> id in drivers
      ensures r.Some? ==> r.value == drivers[id]
    {
      if id in drivers then Some(drivers[id]) else None
    }

    /// Register a driver; its job starts with the driver's config. The reply is sent
    /// at once (`replied`) to a Java driver and to every Python driver but the first,
    /// whose reply waits for the workers started for it.
    method RegisterDriver(d: Worker, config: JobConfig) returns (replied: bool)
      requires Accounting()
      modifies this`drivers, this`pythonDriverRegistered, this`jobs, agent
      ensures Accounting()
      ensures replied <==> d.language == Java || old(pythonDriverRegistered)
      ensures pythonDriverRegistered == (old(pythonDriverRegistered) || d.language == Python)
      ensures drivers == old(drivers)[d.id := d] && GetRegisteredDriver(d.id) == Some(d)
      ensures d.job in jobs
      ensures d.job in old(jobs) ==> jobs == old(jobs) && agent.refs == old(agent.refs)
      ensures d.job !in old(jobs) ==> jobs[d.job].config == config && !jobs[d.job].finished
      ensures d.job !in old(jobs) ==>
                var eager := config.eagerInstall && !IsEmptyEnv(config.runtimeEnv)
                             && config.runtimeEnv != BAD_RUNTIME_ENV;
                && jobs == old(jobs)[d.job := JobRecord(config, false, eager)]
                && agent.refs == if eager then AfterCreate(old(agent.refs), config.runtimeEnv) else old(agent.refs)
    {
      drivers := drivers[d.id := d];
      HandleJobStarted(d.job, config);
      replied := d.language == Java || pythonDriverRegistered;
      if d.language == Python {
        pythonDriverRegistered := true;
      }
    }

    /// The clock and the CPU count are inputs of the pool.
    method SetCurrentTimeMs(t: nat)
      modifies this`nowMs
      ensures nowMs == t
    {
      nowMs := t;
    }

    method SetNumAvailableCpus(n: nat)
      modifies this`numAvailableCpus
      ensures numAvailableCpus == n
    {
      numAvailableCpus := n;
    }

    // -------------------------------------------------------------------------
    // The spill and restore I/O pools

    /// The I/O pool of a kind.
    function IoOf(kind: WorkerKind): (io: IoState)
      requires IsIoKind(kind)
      reads this`spill, this`restore
      ensures kind == Spill ==> io == spill
      ensures kind == Restore ==> io == restore
    {
      if kind == Spill then spill else restore
    }

    /// Launch a Python process of an I/O kind with no job and no runtime env:
    /// refused only at the startup ceiling.
    method StartIoProcess(kind: WorkerKind) returns (ok: bool)
      requires IsIoKind(kind) && Accounting()
      modifies this`procs, agent, this`spill, this`restore
      ensures Accounting()
      ensures ok <==> old(CountStarting(procs)) < MAXIMUM_STARTUP_CONCURRENCY
      ensures agent.refs == old(agent.refs)
      ensures !ok ==> procs == old(procs) && spill == old(spill) && restore == old(restore)
      ensures ok ==>
                && |procs| == |old(procs)| + 1 && procs == old(procs) + [procs[|old(procs)|]]
                && LaunchedAs(procs[|old(procs)|], IoSpec(kind))
                && CountStarting(procs) == old(CountStarting(procs)) + 1
                && spill == IoAfterLaunch(old(spill), Spill, kind)
                && restore == IoAfterLaunch(old(restore), Restore, kind)
    {
      var r := StartWorkerProcess(Python, kind, NIL_JOB, "", 0, [], None);
      ok := r.Launched?;
    }

    /// Pop an I/O worker of a kind. An idle one is handed over at once. Otherwise the
    /// caller waits, and as many processes are launched as there are waiting callers,
    /// within the pool's room under MAX_IO_WORKER_SIZE (starting plus started) and
    /// under the startup ceiling.
    method PopIo(kind: WorkerKind) returns (handed: Option<Worker>, launched: nat)
      requires IsIoKind(kind) && Accounting() && IoValid()
      modifies this`procs, agent, this`spill, this`restore
      ensures Accounting() && IoValid()
      ensures kind == Spill ==> restore == old(restore)
      ensures kind == Restore ==> spill == old(spill)
      ensures agent.refs == old(agent.refs)
      ensures var io := old(IoOf(kind));
              io.idle != [] ==>
                && handed == Some(io.idle[0]) && launched == 0
                && IoOf(kind) == io.(idle := io.idle[1..]) && procs == old(procs)
      ensures var io := old(IoOf(kind));
              var room := MAX_IO_WORKER_SIZE as int - (io.starting + |io.started|);
              var ceiling := MAXIMUM_STARTUP_CONCURRENCY - old(CountStarting(procs));
              io.idle == [] ==>
                && handed.None?
                && launched == Min(Min(io.waiting + 1, if room > 0 then room else 0), ceiling)
                && IoOf(kind) == io.(waiting := io.waiting + 1, starting := io.starting + launched)
                && |procs| == |old(procs)| + launched && procs[..|old(procs)|] == old(procs)
                && AllLaunched(procs, |old(procs)|, IoSpec(kind))
      ensures launched > 0 ==> IoOf(kind).starting + |IoOf(kind).started| <= MAX_IO_WORKER_SIZE
    {
      var io := IoOf(kind);
      if io.idle != [] {
        handed := Some(io.idle[0]);
        if kind == Spill { spill := io.(idle := io.idle[1..]); } else { restore := io.(idle := io.idle[1..]); }
        return handed, 0;
      }
      handed := None;
      if kind == Spill { spill := io.(waiting := io.waiting + 1); } else { restore := io.(waiting := io.waiting + 1); }
      var room: int := MAX_IO_WORKER_SIZE as int - (io.starting + |io.started|);
      launched := LaunchIo(kind, Min(io.waiting + 1, if room > 0 then room else 0));
    }

    /// Launch up to `target` I/O processes of a kind, stopping at the startup ceiling.
    method LaunchIo(kind: WorkerKind, target: nat) returns (launched: nat)
      requires IsIoKind(kind) && Accounting()
      modifies this`procs, agent, this`spill, this`restore
      ensures Accounting()
      ensures launched == Min(target, MAXIMUM_STARTUP_CONCURRENCY - old(CountStarting(procs)))
      ensures agent.refs == old(agent.refs)
      ensures spill == old(spill).(starting := old(spill).starting + (if kind == Spill then launched else 0))
      ensures restore == old(restore).(starting := old(restore).starting + (if kind == Restore then launched else 0))
      ensures |procs| == |old(procs)| + launched && procs[..|old(procs)|] == old(procs)
      ensures AllLaunched(procs, |old(procs)|, IoSpec(kind))
    {
      ghost var procs0 := procs;
      ghost var count0 := CountStarting(procs);
      launched := 0;
      while launched < target
        invariant Accounting()
        invariant launched <= target && count0 + launched <= MAXIMUM_STARTUP_CONCURRENCY
        invariant agent.refs == old(agent.refs)
        invariant spill == old(spill).(starting := old(spill).starting + (if kind == Spill then launched else 0))
        invariant restore == old(restore).(starting := old(restore).starting + (if kind == Restore then launched else 0))
        invariant |procs| == |procs0| + launched && procs[..|procs0|] == procs0
        invariant CountStarting(procs) == count0 + launched
        invariant AllLaunched(procs, |procs0|, IoSpec(kind))
        decreases target - launched
      {
        ghost var before := procs;
        var ok := StartIoProcess(kind);
        if !ok {
          break;
        }
        AppendLaunched(before, |procs0|, procs[|before|], IoSpec(kind));
        launched := launched + 1;
      }
    }

    /// Return an I/O worker to the pool of a kind. A dead worker is dropped from the
    /// pool's started set; otherwise it serves the oldest waiting caller, or becomes
    /// idle (once: an idle worker pushed again stays where it is).
    method PushIo(pool: WorkerKind, w: Worker) returns (served: bool)
      requires IsIoKind(pool) && IoValid()
      modifies this`spill, this`restore
      ensures IoValid()
      ensures pool == Spill ==> restore == old(restore)
      ensures pool == Restore ==> spill == old(spill)
      ensures var io := old(IoOf(pool));
              && (w.id in dead ==> !served && IoOf(pool) == io.(started := io.started - {w.id}))
              && (w.id !in dead && io.waiting > 0 ==> served && IoOf(pool) == io.(waiting := io.waiting - 1))
              && (w.id !in dead && io.waiting == 0 ==>
                    !served && IoOf(pool) == io.(idle := if w in io.idle then io.idle else io.idle + [w]))
    {
      var io := IoOf(pool);
      var io' := io;
      served := false;
      if w.id in dead {
        io' := io.(started := io.started - {w.id});
      } else if io.waiting > 0 {
        io' := io.(waiting := io.waiting - 1);
        served := true;
      } else if w !in io.idle {
        io' := io.(idle := io.idle + [w]);
      }
      if pool == Spill { spill := io'; } else { restore := io'; }
    }

    /// The pool a delete request is served from: the one with more idle workers,
    /// restore on a tie.
    function DeletePool(): (kind: WorkerKind)
      reads this`spill, this`restore
      ensures IsIoKind(kind)
      ensures kind == Spill <==> |restore.idle| < |spill.idle|
    {
      if |restore.idle| < |spill.idle| then Spill else Restore
    }

    /// Pop a worker for deleting spilled objects, from the pool DeletePool names.
    method PopDelete() returns (kind: WorkerKind, handed: Option<Worker>, launched: nat)
      requires Accounting() && IoValid()
      modifies this`procs, agent, this`spill, this`restore
      ensures Accounting() && IoValid()
      ensures kind == old(DeletePool())
      ensures kind == Spill ==> restore == old(restore)
      ensures kind == Restore ==> spill == old(spill)
      ensures agent.refs == old(agent.refs)
      ensures var io := old(IoOf(kind));
              io.idle != [] ==>
                && handed == Some(io.idle[0]) && launched == 0
                && IoOf(kind) == io.(idle := io.idle[1..]) && procs == old(procs)
      ensures var io := old(IoOf(kind));
              var room := MAX_IO_WORKER_SIZE as int - (io.starting + |io.started|);
              var ceiling := MAXIMUM_STARTUP_CONCURRENCY - old(CountStarting(procs));
              io.idle == [] ==>
                && handed.None?
                && launched == Min(Min(io.waiting + 1, if room > 0 then room else 0), ceiling)
                && IoOf(kind) == io.(waiting := io.waiting + 1, starting := io.starting + launched)
                && |procs| == |old(procs)| + launched && procs[..|old(procs)|] == old(procs)
                && AllLaunched(procs, |old(procs)|, IoSpec(kind))
    {
      kind := DeletePool();
      handed, launched := PopIo(kind);
    }

    /// Return a delete worker to the pool of its own kind.
    method PushDelete(w: Worker) returns (served: bool)
      requires IsIoKind(w.kind) && IoValid()
      modifies this`spill, this`restore
      ensures IoValid()
      ensures w.kind == Spill ==> restore == old(restore)
      ensures w.kind == Restore ==> spill == old(spill)
      ensures var io := old(IoOf(w.kind));
              && (w.id in dead ==> !served && IoOf(w.kind) == io.(started := io.started - {w.id}))
              && (w.id !in dead && io.waiting > 0 ==> served && IoOf(w.kind) == io.(waiting := io.waiting - 1))
              && (w.id !in dead && io.waiting == 0 ==>
                    !served && IoOf(w.kind) == io.(idle := if w in io.idle then io.idle else io.idle + [w]))
    {
      served := PushIo(w.kind, w);
    }

    // -------------------------------------------------------------------------
    // Prestarting and the test double's process bookkeeping

    /// Prestart workers for a backlog of `backlog` tasks like `req`: enough for the
    /// workers of its language that are idle or still starting to reach the smaller
    /// of the backlog and the number of available CPUs. Every launch is an ordinary
    /// one, so launches beyond the startup ceiling and launches with a refused
    /// runtime env start nothing.
    method PrestartWorkers(req: PopRequest, backlog: nat) returns (launched: nat)
      requires Accounting()
      modifies this`procs, agent, this`spill, this`restore
      ensures Accounting()
      ensures spill == old(spill) && restore == old(restore)
      ensures var usable := IdleOfLanguage(idle, req.language) + old(CountIf(procs, StartingOf(req.language)));
              var desired := Min(numAvailableCpus, backlog);
              var needed := if usable < desired then desired - usable else 0;
              launched == if req.runtimeEnv == BAD_RUNTIME_ENV then 0
                          else Min(needed, MAXIMUM_STARTUP_CONCURRENCY - old(CountStarting(procs)))
      ensures |procs| == |old(procs)| + launched && procs[..|old(procs)|] == old(procs)
      ensures AllLaunched(procs, |old(procs)|, PrestartSpec(req))
      ensures IsEmptyEnv(req.runtimeEnv) ==> agent.refs == old(agent.refs)
    {
      var usable := IdleOfLanguage(idle, req.language) + CountIf(procs, StartingOf(req.language));
      var desired := Min(numAvailableCpus, backlog);
      launched := PrestartBatch(req, if usable < desired then desired - usable else 0);
    }

    /// Launch `count` processes for tasks like `req`, one attempt each.
    method PrestartBatch(req: PopRequest, count: nat) returns (launched: nat)
      requires Accounting()
      modifies this`procs, agent, this`spill, this`restore
      ensures Accounting()
      ensures spill == old(spill) && restore == old(restore)
      ensures launched == if req.runtimeEnv == BAD_RUNTIME_ENV then 0
                          else Min(count, MAXIMUM_STARTUP_CONCURRENCY - old(CountStarting(procs)))
      ensures |procs| == |old(procs)| + launched && procs[..|old(procs)|] == old(procs)
      ensures AllLaunched(procs, |old(procs)|, PrestartSpec(req))
      ensures IsEmptyEnv(req.runtimeEnv) ==> agent.refs == old(agent.refs)
    {
      ghost var procs0 := procs;
      ghost var count0 := CountStarting(procs);
      launched := 0;
      for i := 0 to count
        invariant Accounting()
        invariant spill == old(spill) && restore == old(restore)
        invariant launched == if req.runtimeEnv == BAD_RUNTIME_ENV then 0
                              else Min(i, MAXIMUM_STARTUP_CONCURRENCY - count0)
        invariant |procs| == |procs0| + launched && procs[..|procs0|] == procs0
        invariant CountStarting(procs) == count0 + launched
        invariant AllLaunched(procs, |procs0|, PrestartSpec(req))
        invariant IsEmptyEnv(req.runtimeEnv) ==> agent.refs == old(agent.refs)
      {
        ghost var before := procs;
        var r := StartWorkerProcess(req.language, Regular, req.job, req.runtimeEnv, req.envHash,
                                    req.dynamicOptions, None);
        if r.Launched? {
          AppendLaunched(before, |procs0|, procs[|before|], PrestartSpec(req));
          launched := launched + 1;
        }
      }
    }

    /// Processes still pending registration, counted one by one.
    method NumWorkersStarting() returns (n: nat)
      ensures n == CountStarting(procs)
    {
      var ps := procs;
      n := 0;
      for i := 0 to |ps|
        invariant n == CountStarting(ps[..i])
      {
        assert ps[..i + 1][..i] == ps[..i];
        if ps[i].state == Starting {
          n := n + 1;
        }
      }
      assert ps[..|ps|] == ps;
    }

    /// Register a regular worker under its own process's token and announce it
    /// started, as the test double does before pushing it.
    method AnnounceWorker(w: Worker) returns (failed: seq<PopOutcome>)
      requires Accounting() && QueuesValid() && KnownToken(w.token) && w.kind == Regular
      modifies this`registered, this`procs, this`pendingStart, this`pendingRegistration, agent, this`spill, this`restore
      ensures Accounting() && QueuesValid()
      ensures registered == old(registered)[w.id := w]
      ensures spill == old(spill) && restore == old(restore)
      ensures |procs| >= |old(procs)|
      ensures procs[..|old(procs)|] == if old(procs)[w.token].state == Starting
                                       then old(procs)[w.token := old(procs)[w.token].(state := Started)] else old(procs)
    {
      var ok := RegisterWorker(w, w.token);
      var served;
      served, failed := OnWorkerStarted(w);
    }

    /// The test double's step for one process it has not pushed yet and does not
    /// let time out: it creates a worker for it (language and hash read back from
    /// the command line), registers it under the process's token, announces it
    /// started and pushes it.
    method PushCreated(t: nat, job: JobId) returns (outs: seq<PopOutcome>)
      requires Valid() && t < |procs|
      requires procs[t].state != Gone && ScanEnvHash(procs[t].command).Some?
      modifies this`registered, this`nextWorkerId
      modifies this`procs, this`pendingStart, this`pendingRegistration, agent, this`spill, this`restore, this`idle
      ensures Valid()
      ensures nextWorkerId == old(nextWorkerId) + 1
      ensures registered == old(registered)[old(nextWorkerId) := PushedWorker(old(nextWorkerId), job, t, old(procs)[t].command)]
      ensures |procs| >= |old(procs)|
      ensures procs[..|old(procs)|] == if old(procs)[t].state == Starting
                                       then old(procs)[t := old(procs)[t].(state := Started)] else old(procs)
    {
      var w := CreateWorker(nextWorkerId, job, t, procs[t].command);
      nextWorkerId := nextWorkerId + 1;
      outs := AnnounceAndPush(w);
    }

    /// Announce a created regular worker started and push it.
    method AnnounceAndPush(w: Worker) returns (outs: seq<PopOutcome>)
      requires Valid() && KnownToken(w.token) && w.kind == Regular
      modifies this`registered, this`procs, this`pendingStart, this`pendingRegistration, agent, this`spill, this`restore, this`idle
      ensures Valid()
      ensures registered == old(registered)[w.id := w]
      ensures |procs| >= |old(procs)|
      ensures procs[..|old(procs)|] == if old(procs)[w.token].state == Starting
                                       then old(procs)[w.token := old(procs)[w.token].(state := Started)] else old(procs)
    {
      var failed := AnnounceWorker(w);
      assert IdleValid() && IoValid();
      var more := PushWorker(w);
      assert Accounting() && IoValid();
      outs := failed + more;
    }

    /// The test double's PushWorkers: every process launched so far and not pushed
    /// before gets a worker (none when `timeoutCount` is 1, to let its registration
    /// time out) and counts as pushed. Processes launched meanwhile are left for
    /// the next call.
    method PushWorkers(timeoutCount: nat, job: JobId) returns (outs: seq<PopOutcome>)
      requires Valid() && timeoutCount <= 1
      requires timeoutCount == 0 ==>
                 forall u :: 0 <= u < |procs| && u !in pushedProcs ==>
                   procs[u].state != Gone && ScanEnvHash(procs[u].command).Some?
      modifies this`registered, this`nextWorkerId, this`pushedProcs
      modifies this`procs, this`pendingStart, this`pendingRegistration, agent, this`spill, this`restore, this`idle
      ensures Valid()
      ensures MarkedUpTo(pushedProcs, old(pushedProcs), |old(procs)|)
      ensures timeoutCount == 1 ==>
                procs == old(procs) && registered == old(registered) && idle == old(idle) && outs == []
      ensures timeoutCount == 0 ==> StartedUpTo(old(procs), procs, old(pushedProcs), |old(procs)|, |old(procs)|)
    {
      if timeoutCount == 0 {
        outs := PushAll(job);
      } else {
        MarkAll();
        outs := [];
      }
    }

    /// Mark every process launched so far as pushed, creating no worker.
    method MarkAll()
      modifies this`pushedProcs
      ensures MarkedUpTo(pushedProcs, old(pushedProcs), |procs|)
    {
      for t := 0 to |procs|
        invariant MarkedUpTo(pushedProcs, old(pushedProcs), t)
      {
        MarkNext(pushedProcs, old(pushedProcs), t);
        pushedProcs := pushedProcs + {t};
      }
    }

    /// Create, register, announce and push a worker for every process launched so
    /// far and not pushed before, and mark it pushed.
    method PushAll(job: JobId) returns (outs: seq<PopOutcome>)
      requires Valid()
      requires forall u :: 0 <= u < |procs| && u !in pushedProcs ==>
                 procs[u].state != Gone && ScanEnvHash(procs[u].command).Some?
      modifies this`registered, this`nextWorkerId, this`pushedProcs
      modifies this`procs, this`pendingStart, this`pendingRegistration, agent, this`spill, this`restore, this`idle
      ensures Valid()
      ensures MarkedUpTo(pushedProcs, old(pushedProcs), |old(procs)|)
      ensures StartedUpTo(old(procs), procs, old(pushedProcs), |old(procs)|, |old(procs)|)
    {
      var n := |procs|;
      ghost var procs0 := procs;
      ghost var pushed0 := pushedProcs;
      outs := [];
      for t := 0 to n
        invariant Valid()
        invariant MarkedUpTo(pushedProcs, pushed0, t)
        invariant StartedUpTo(procs0, procs, pushed0, n, t)
      {
        if t in pushedProcs {
          StartSkip(procs0, procs, pushed0, n, t);
          MarkSkip(pushedProcs, pushed0, t);
        } else {
          var before := procs;
          var more := PushCreated(t, job);
          StartNext(procs0, before, procs, pushed0, n, t);
          MarkNext(pushedProcs, pushed0, t);
          pushedProcs := pushedProcs + {t};
          outs := outs + more;
        }
      }
    }
  }
}
