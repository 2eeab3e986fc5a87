// The runtime env agent as the worker pool tests mock it: a reference count per
// serialized runtime env, raised on every successful get-or-create and lowered on
// every delete; one env string is refused.
module RuntimeEnvAgents {
  import opened WorkerTypes

  /// The count of env, zero when the agent never saw it.
  function ReferenceCount(refs: map<string, nat>, env: string): nat
  {
    if env in refs then refs[env] else 0
  }

  /// The table after a successful get-or-create of env.
  function AfterCreate(refs: map<string, nat>, env: string): (r: map<string, nat>)
    ensures forall t {:trigger ReferenceCount(r, t)} :: ReferenceCount(r, t) == ReferenceCount(refs, t) + (if t == env then 1 else 0)
  {
    refs[env := ReferenceCount(refs, env) + 1]
  }

  /// The table after a delete of env; the entry stays, possibly at zero.
  function AfterDelete(refs: map<string, nat>, env: string): (r: map<string, nat>)
    requires ReferenceCount(refs, env) >= 1
    ensures forall t {:trigger ReferenceCount(r, t)} :: ReferenceCount(r, t) == ReferenceCount(refs, t) - (if t == env then 1 else 0)
    ensures r.Keys == refs.Keys
  {
    refs[env := refs[env] - 1]
  }

  /// A create followed by a delete of the same env leaves every count as it was.
  lemma CreateThenDelete(refs: map<string, nat>, env: string)
    ensures ReferenceCount(AfterCreate(refs, env), env) >= 1
    ensures forall t :: ReferenceCount(AfterDelete(AfterCreate(refs, env), env), t) == ReferenceCount(refs, t)
  {
  }

  class RuntimeEnvAgent {
    var refs: map<string, nat>

    constructor()
      ensures refs == map[]
    {
      refs := map[];
    }

    /// Succeeds, counting one more reference, for every env except the bad one,
    /// which is refused with the bad-env message and counts nothing.
    method GetOrCreate(env: string) returns (ok: bool, message: string)
      modifies this
      ensures ok <==> env != BAD_RUNTIME_ENV
      ensures ok ==> message == "" && refs == AfterCreate(old(refs), env)
      ensures !ok ==> message == BAD_RUNTIME_ENV_ERROR_MSG && refs == old(refs)
    {
      if env == BAD_RUNTIME_ENV {
        ok, message := false, BAD_RUNTIME_ENV_ERROR_MSG;
      } else {
        refs := AfterCreate(refs, env);
        ok, message := true, "";
      }
    }

    /// Drops one reference. The mock checks that the env is known and that its
    /// count does not go below zero; both are this method's precondition.
    method Delete(env: string)
      requires env in refs && refs[env] >= 1
      modifies this
      ensures refs == AfterDelete(old(refs), env)
    {
      refs := AfterDelete(refs, env);
    }
  }
}
