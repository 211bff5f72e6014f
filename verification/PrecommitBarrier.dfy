/**
 The single-use execution permit.

 Models `PrecommitBarrier` of runtime_core/barrier.py. Token ids are fresh numbers.
 */
module PrecommitBarriers {
  import opened Results
  import opened SandboxModel

  datatype Verdict = Allow | Denied | NukeTriggered

  datatype ExecutionPlan = ExecutionPlan(tools: seq<string>, estimatedCost: real, verdict: Verdict)

  datatype Refusal = Nuke | Killswitch | OverBudget

  /** Why a plan gets no token, if it gets none. */
  function RefusalOf(plan: ExecutionPlan, killswitched: bool, snapshotCost: real, budget: Amount): Option<Refusal> {
    if plan.verdict.NukeTriggered? then Some(Nuke)
    else if killswitched then Some(Killswitch)
    else if !Covers(budget, plan.estimatedCost + snapshotCost) then Some(OverBudget)
    else None
  }

  class PrecommitBarrier {
    var activeTokens: map<nat, ExecutionPlan>
    var nextToken: nat

    /** Tokens are handed out in order, so a new one is never active already. */
    ghost predicate Valid()
      reads this
    {
      forall t :: t in activeTokens ==> t < nextToken
    }

    constructor ()
      ensures Valid() && activeTokens == map[]
    {
      activeTokens, nextToken := map[], 0;
    }

    /** `precommit`: a token exactly when nothing forbids the plan. */
    method Precommit(plan: ExecutionPlan, killswitched: bool, snapshotCost: real, budget: Amount)
      returns (token: Result<nat, Refusal>)
      requires Valid()
      modifies this
      ensures Valid() && old(nextToken) <= nextToken
      ensures var refusal := RefusalOf(plan, killswitched, snapshotCost, budget);
        if refusal.Some? then token == Failure(refusal.value) && activeTokens == old(activeTokens)
        else token.Success? && token.value !in old(activeTokens) && old(nextToken) <= token.value
             && activeTokens == old(activeTokens)[token.value := plan]
    {
      if plan.verdict.NukeTriggered? {
        return Failure(Nuke);
      }
      if killswitched {
        return Failure(Killswitch);
      }
      if !Covers(budget, plan.estimatedCost + snapshotCost) {
        return Failure(OverBudget);
      }
      token := Success(nextToken);
      activeTokens := activeTokens[nextToken := plan];
      nextToken := nextToken + 1;
    }

    /** `consume`: the plan of an active token, once; a token that is not active is refused. */
    method Consume(token: nat) returns (plan: Option<ExecutionPlan>)
      requires Valid()
      modifies this`activeTokens
      ensures Valid() && activeTokens == old(activeTokens) - {token}
      ensures plan == if token in old(activeTokens) then Some(old(activeTokens)[token]) else None
    {
      if token !in activeTokens {
        return None;
      }
      plan := Some(activeTokens[token]);
      activeTokens := activeTokens - {token};
    }
  }
}
