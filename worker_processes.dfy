// Worker processes launched by the pool, indexed by their startup token, and the
// counts the pool keeps over them: processes still starting (the startup ceiling)
// and processes holding a reference on a runtime env.
module WorkerProcesses {
  import opened Wrappers
  import opened WorkerTypes

  /// A process is starting from its launch until its worker announces its port
  /// (registration alone does not end this phase); then started; gone once its
  /// worker disconnected or its registration timed out.
  datatype ProcState = Starting | Started | Gone

  /// One launched process: what it was launched for, the command it runs, whether
  /// it holds a reference on its runtime env, and its startup keep-alive duration.
  datatype ProcInfo = ProcInfo(
    language: Language,
    kind: WorkerKind,
    job: JobId,
    runtimeEnv: string,
    envHash: int,
    command: seq<string>,
    state: ProcState,
    holdsEnv: bool,
    keepAliveMs: Option<nat>)

  /// The process properties the pool counts.
  datatype ProcFilter =
    | AnyStarting
    | StartingOf(language: Language)
    | Holding(env: string)

  predicate Matches(f: ProcFilter, p: ProcInfo)
  {
    match f
    case AnyStarting => p.state == Starting
    case StartingOf(l) => p.state == Starting && p.language == l
    case Holding(env) => p.holdsEnv && p.runtimeEnv == env
  }

  /// Number of processes matching f.
  function CountIf(procs: seq<ProcInfo>, f: ProcFilter): (n: nat)
    ensures n <= |procs|
    decreases |procs|
  {
    if procs == [] then 0
    else CountIf(procs[..|procs| - 1], f) + (if Matches(f, procs[|procs| - 1]) then 1 else 0)
  }

  /// Processes pending registration, over all languages and kinds.
  function CountStarting(procs: seq<ProcInfo>): nat { CountIf(procs, AnyStarting) }

  /// Processes holding a reference on runtime env `env`.
  function ProcRefs(procs: seq<ProcInfo>, env: string): nat { CountIf(procs, Holding(env)) }

  lemma CountIfAppend(procs: seq<ProcInfo>, p: ProcInfo, f: ProcFilter)
    ensures CountIf(procs + [p], f) == CountIf(procs, f) + (if Matches(f, p) then 1 else 0)
  {
    assert (procs + [p])[..|procs|] == procs;
  }

  /// Replacing one process changes each count by what the old and new entries contribute.
  lemma {:induction false} CountIfUpdate(procs: seq<ProcInfo>, i: nat, p: ProcInfo, f: ProcFilter)
    requires i < |procs|
    ensures CountIf(procs[i := p], f)
         == CountIf(procs, f) - (if Matches(f, procs[i]) then 1 else 0) + (if Matches(f, p) then 1 else 0)
    decreases |procs|
  {
    var n := |procs| - 1;
    if i < n {
      CountIfUpdate(procs[..n], i, p, f);
      assert procs[i := p][..n] == procs[..n][i := p];
    } else {
      assert procs[i := p][..n] == procs[..n];
    }
  }

  /// A matching process makes the count positive.
  lemma CountIfPositive(procs: seq<ProcInfo>, i: nat, f: ProcFilter)
    requires i < |procs| && Matches(f, procs[i])
    ensures CountIf(procs, f) >= 1
  {
    CountIfUpdate(procs, i, procs[i].(state := Gone, holdsEnv := false), f);
  }
}
