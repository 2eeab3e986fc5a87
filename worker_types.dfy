// Values shared by the raylet worker pool model: workers, pop requests,
// their outcomes, idle entries and the worker/request matching rule.
module WorkerTypes {
  import opened Wrappers

  /// Fixture constants of the worker pool tests.
  const MAXIMUM_STARTUP_CONCURRENCY: nat := 15
  const MAX_IO_WORKER_SIZE: nat := 2
  const POOL_SIZE_SOFT_LIMIT: nat := 3
  /// Default grace period an idle worker is protected for before a capacity sweep may exit it.
  const IDLE_WORKER_KILLING_TIME_THRESHOLD_MS: nat := 1000
  /// The only runtime env the mocked agent refuses, and the message it refuses it with.
  const BAD_RUNTIME_ENV: string := "bad runtime env"
  const BAD_RUNTIME_ENV_ERROR_MSG: string := "bad runtime env"

  type WorkerId = nat
  type ActorId = nat
  /// Job ids; NIL_JOB plays the role of JobID::Nil().
  type JobId = nat
  const NIL_JOB: JobId := 0

  datatype Language = Python | Java

  /// Regular execution worker, or one of the two I/O worker kinds.
  datatype WorkerKind = Regular | Spill | Restore

  predicate IsIoKind(k: WorkerKind) { k == Spill || k == Restore }

  /// A worker as the pool sees it. `token` is the startup token of its process;
  /// `assignedTask` says whether it has ever been assigned a task (a worker that
  /// never ran anything is cheaper to exit and is treated differently when pushed).
  datatype Worker = Worker(
    id: WorkerId,
    language: Language,
    kind: WorkerKind,
    job: JobId,
    envHash: int,
    rootDetachedActor: Option<ActorId>,
    token: nat,
    assignedTask: bool)

  /// A request to pop a worker. `accepts` is what the request's callback answers
  /// when it is handed a worker (true: the worker is used; false: it goes back).
  datatype PopRequest = PopRequest(
    language: Language,
    job: JobId,
    rootDetachedActor: Option<ActorId>,
    runtimeEnv: string,
    envHash: int,
    dynamicOptions: seq<string>,
    keepAliveMs: Option<nat>,
    accepts: bool)

  datatype PopStatus =
    | OK
    | JobConfigMissing
    | JobFinished
    | WorkerPendingRegistration
    | RuntimeEnvCreationFailed

  /// One call of a pop request's callback.
  datatype PopOutcome = PopOutcome(
    request: PopRequest,
    worker: Option<Worker>,
    status: PopStatus,
    message: string)

  /// A request that waits for the worker of an already launched process.
  datatype PendingRegistration = PendingRegistration(request: PopRequest, token: nat)

  /// An idle worker and the time (ms) until which it is protected from capacity eviction.
  datatype IdleEntry = IdleEntry(worker: Worker, keepAliveUntil: nat)

  /// A runtime env that needs no agent call.
  predicate IsEmptyEnv(env: string) { env == "" || env == "{}" }

  /// The matching rule for handing an idle or freshly started worker to a request:
  /// same language, a regular worker, the same runtime env hash, a job that is nil
  /// or the request's, and root detached actors that agree when both are set.
  predicate Fits(w: Worker, r: PopRequest)
  {
    && w.language == r.language
    && w.kind == Regular
    && w.envHash == r.envHash
    && (w.job == NIL_JOB || w.job == r.job)
    && (w.rootDetachedActor.None? || r.rootDetachedActor.None?
        || w.rootDetachedActor == r.rootDetachedActor)
  }

  /// Index of the most recently idled entry that fits the request and is not dead.
  function LastFit(idle: seq<IdleEntry>, r: PopRequest, dead: set<WorkerId>): (k: Option<nat>)
    ensures k.Some? ==> k.value < |idle| && Fits(idle[k.value].worker, r)
                        && idle[k.value].worker.id !in dead
    ensures k.Some? ==> forall j :: k.value < j < |idle| ==>
              !(Fits(idle[j].worker, r) && idle[j].worker.id !in dead)
    ensures k.None? ==> forall j :: 0 <= j < |idle| ==>
              !(Fits(idle[j].worker, r) && idle[j].worker.id !in dead)
    decreases |idle|
  {
    if idle == [] then None
    else
      var n := |idle| - 1;
      if Fits(idle[n].worker, r) && idle[n].worker.id !in dead then Some(n)
      else LastFit(idle[..n], r, dead)
  }

  /// The idle worker handed to a request has the request's language and runtime
  /// env hash, is alive and not an I/O worker, has a nil job or the request's job,
  /// and is bound to the request's root detached actor when both name one.
  lemma LastFitMatches(idle: seq<IdleEntry>, r: PopRequest, dead: set<WorkerId>)
    ensures var k := LastFit(idle, r, dead);
            k.Some? ==>
              var w := idle[k.value].worker;
              && w.language == r.language && w.envHash == r.envHash && !IsIoKind(w.kind)
              && w.id !in dead
              && (w.job == NIL_JOB || w.job == r.job)
              && (w.rootDetachedActor.Some? && r.rootDetachedActor.Some? ==>
                    w.rootDetachedActor == r.rootDetachedActor)
  {
  }

  /// A live regular idle worker of the request's language and hash, with a nil job
  /// or the request's, and with a root detached actor that is unset on either side
  /// or the same, is never passed over: an idle worker is handed over, that one or a
  /// more recently idled one.
  lemma LastFitFinds(idle: seq<IdleEntry>, r: PopRequest, dead: set<WorkerId>, i: nat)
    requires i < |idle| && idle[i].worker.id !in dead
    requires var w := idle[i].worker;
             && w.kind == Regular && w.language == r.language && w.envHash == r.envHash
             && (w.job == NIL_JOB || w.job == r.job)
             && (w.rootDetachedActor.None? || r.rootDetachedActor.None? || w.rootDetachedActor == r.rootDetachedActor)
    ensures LastFit(idle, r, dead).Some? && LastFit(idle, r, dead).value >= i
  {
  }

  /// An idle worker of another job, or bound to another root detached actor than
  /// the request's, is never handed to it.
  lemma LastFitSkips(idle: seq<IdleEntry>, r: PopRequest, dead: set<WorkerId>, i: nat)
    requires i < |idle|
    requires var w := idle[i].worker;
             || (w.job != NIL_JOB && w.job != r.job)
             || (w.rootDetachedActor.Some? && r.rootDetachedActor.Some? && w.rootDetachedActor != r.rootDetachedActor)
    ensures LastFit(idle, r, dead) != Some(i)
  {
  }
}
