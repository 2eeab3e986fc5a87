// Job records and the runtime env reference accounting of the worker pool: every
// reference the agent counts is held either by a launched process or by a job that
// installed its env eagerly.
module PoolAccounting {
  import opened WorkerTypes
  import opened WorkerProcesses
  import opened RuntimeEnvAgents

  /// The parts of a job config the pool reads: the Java code search path and JVM
  /// options of its workers, and its runtime env with the eager-install flag.
  datatype JobConfig = JobConfig(
    codeSearchPath: seq<string>,
    jvmOptions: seq<string>,
    runtimeEnv: string,
    eagerInstall: bool)

  /// A known job; `eagerHeld` says whether its start took a reference on its env.
  datatype JobRecord = JobRecord(config: JobConfig, finished: bool, eagerHeld: bool)

  predicate HoldsFor(rec: JobRecord, env: string)
  {
    rec.eagerHeld && rec.config.runtimeEnv == env
  }

  /// The jobs holding an eager reference on env.
  function Holders(jobs: map<JobId, JobRecord>, env: string): set<JobId>
  {
    set j | j in jobs && HoldsFor(jobs[j], env)
  }

  function JobRefs(jobs: map<JobId, JobRecord>, env: string): nat
  {
    |Holders(jobs, env)|
  }

  /// The agent's counts are exactly the references held by processes and jobs.
  ghost predicate RefBalance(refs: map<string, nat>, procs: seq<ProcInfo>, jobs: map<JobId, JobRecord>)
  {
    forall env {:trigger ReferenceCount(refs, env)} :: ReferenceCount(refs, env) == ProcRefs(procs, env) + JobRefs(jobs, env)
  }

  lemma HoldersSet(jobs: map<JobId, JobRecord>, j: JobId, rec: JobRecord, env: string)
    ensures Holders(jobs[j := rec], env) == (Holders(jobs, env) - {j}) + (if HoldsFor(rec, env) then {j} else {})
  {
  }

  lemma HoldersWithout(jobs: map<JobId, JobRecord>, j: JobId, env: string)
    ensures |Holders(jobs, env)| == |Holders(jobs, env) - {j}| + (if j in jobs && HoldsFor(jobs[j], env) then 1 else 0)
  {
    if j in jobs && HoldsFor(jobs[j], env) {
      assert Holders(jobs, env) == (Holders(jobs, env) - {j}) + {j};
    } else {
      assert Holders(jobs, env) == Holders(jobs, env) - {j};
    }
  }

  lemma JobRefsSet(jobs: map<JobId, JobRecord>, j: JobId, rec: JobRecord, env: string)
    ensures JobRefs(jobs[j := rec], env)
         == JobRefs(jobs, env) - (if j in jobs && HoldsFor(jobs[j], env) then 1 else 0)
                               + (if HoldsFor(rec, env) then 1 else 0)
  {
    HoldersSet(jobs, j, rec, env);
    HoldersWithout(jobs, j, env);
    var others := Holders(jobs, env) - {j};
    if HoldsFor(rec, env) {
      assert j !in others;
      assert |others + {j}| == |others| + 1;
    } else {
      assert others + {} == others;
    }
  }

  /// A launched process holding a fresh reference keeps the balance.
  lemma BalanceLaunch(refs: map<string, nat>, procs: seq<ProcInfo>, jobs: map<JobId, JobRecord>, p: ProcInfo)
    requires RefBalance(refs, procs, jobs)
    ensures p.holdsEnv ==> RefBalance(AfterCreate(refs, p.runtimeEnv), procs + [p], jobs)
    ensures !p.holdsEnv ==> RefBalance(refs, procs + [p], jobs)
  {
    forall env ensures ProcRefs(procs + [p], env) == ProcRefs(procs, env) + (if p.holdsEnv && p.runtimeEnv == env then 1 else 0) {
      CountIfAppend(procs, p, Holding(env));
    }
  }

  /// Replacing a process record: when it gives up its reference the agent drops one,
  /// otherwise nothing changes in the agent.
  lemma BalanceUpdate(refs: map<string, nat>, procs: seq<ProcInfo>, jobs: map<JobId, JobRecord>, i: nat, p: ProcInfo)
    requires RefBalance(refs, procs, jobs) && i < |procs|
    requires p.runtimeEnv == procs[i].runtimeEnv
    ensures procs[i].holdsEnv && !p.holdsEnv ==>
              ReferenceCount(refs, p.runtimeEnv) >= 1 &&
              RefBalance(AfterDelete(refs, p.runtimeEnv), procs[i := p], jobs)
    ensures procs[i].holdsEnv == p.holdsEnv ==> RefBalance(refs, procs[i := p], jobs)
  {
    forall env ensures ProcRefs(procs[i := p], env)
      == ProcRefs(procs, env) - (if procs[i].holdsEnv && procs[i].runtimeEnv == env then 1 else 0)
                              + (if p.holdsEnv && p.runtimeEnv == env then 1 else 0) {
      CountIfUpdate(procs, i, p, Holding(env));
    }
    if procs[i].holdsEnv {
      CountIfPositive(procs, i, Holding(p.runtimeEnv));
    }
  }

  /// Adding a job record, with or without an eager reference, keeps the balance.
  lemma BalanceJobAdd(refs: map<string, nat>, procs: seq<ProcInfo>, jobs: map<JobId, JobRecord>, j: JobId, rec: JobRecord)
    requires RefBalance(refs, procs, jobs) && j !in jobs
    ensures rec.eagerHeld ==> RefBalance(AfterCreate(refs, rec.config.runtimeEnv), procs, jobs[j := rec])
    ensures !rec.eagerHeld ==> RefBalance(refs, procs, jobs[j := rec])
  {
    forall env ensures JobRefs(jobs[j := rec], env) == JobRefs(jobs, env) + (if HoldsFor(rec, env) then 1 else 0) {
      JobRefsSet(jobs, j, rec, env);
    }
  }

  /// Finishing a job that held an eager reference lets the agent drop it.
  lemma BalanceJobFinish(refs: map<string, nat>, procs: seq<ProcInfo>, jobs: map<JobId, JobRecord>, j: JobId)
    requires RefBalance(refs, procs, jobs) && j in jobs
    ensures var rec := jobs[j].(finished := true, eagerHeld := false);
            jobs[j].eagerHeld ==>
              ReferenceCount(refs, jobs[j].config.runtimeEnv) >= 1 &&
              RefBalance(AfterDelete(refs, jobs[j].config.runtimeEnv), procs, jobs[j := rec])
    ensures var rec := jobs[j].(finished := true, eagerHeld := false);
            !jobs[j].eagerHeld ==> RefBalance(refs, procs, jobs[j := rec])
  {
    var rec := jobs[j].(finished := true, eagerHeld := false);
    forall env ensures JobRefs(jobs[j := rec], env) == JobRefs(jobs, env) - (if HoldsFor(jobs[j], env) then 1 else 0) {
      JobRefsSet(jobs, j, rec, env);
    }
    if jobs[j].eagerHeld {
      var env := jobs[j].config.runtimeEnv;
      assert j in Holders(jobs, env);
    }
  }

  /// With every job finished and every process gone, the agent holds no reference.
  lemma BalanceDrained(refs: map<string, nat>, procs: seq<ProcInfo>, jobs: map<JobId, JobRecord>, env: string)
    requires RefBalance(refs, procs, jobs)
    requires forall i :: 0 <= i < |procs| ==> !procs[i].holdsEnv
    requires forall j :: j in jobs ==> !jobs[j].eagerHeld
    ensures ReferenceCount(refs, env) == 0
  {
    NoHolders(procs, env);
    assert Holders(jobs, env) == {};
  }

  lemma {:induction false} NoHolders(procs: seq<ProcInfo>, env: string)
    requires forall i :: 0 <= i < |procs| ==> !procs[i].holdsEnv
    ensures ProcRefs(procs, env) == 0
    decreases |procs|
  {
    if procs != [] {
      NoHolders(procs[..|procs| - 1], env);
    }
  }
}
