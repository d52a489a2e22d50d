/**
 Executing a guarded plan: revalidate, write evidence, state, history and derived
 rows in that order, and after a failure fill the gaps only. One call is atomic
 with respect to other executors; plans may be executed arbitrarily late.
 */
module MutationExecutor {
  import opened Wrappers
  import opened Identity
  import opened GuardedMutation
  import opened MutationRepository

  datatype ExecutionStatus = Committed | Suppressed | KillSwitchOff | Refused | ConcurrentChange | PartialWriteRepaired
                           | RepairFailed

  datatype ExecutionResult = ExecutionResult(status: ExecutionStatus, mutationExecuted: bool, outcomePresent: bool,
                                             applicationAtTarget: bool, pipelinePresent: bool, derivedReconciled: bool,
                                             repairAttempted: bool)
  {
    predicate PostconditionPassed() {
      outcomePresent && applicationAtTarget && pipelinePresent && derivedReconciled
    }
  }

  predicate AtTarget(s: OpportunityState, target: map<Field, string>) {
    && (StatusField in target ==> s.status == target[StatusField])
    && (AppliedDate in target ==> s.appliedDate == target[AppliedDate])
    && (LastUpdate in target ==> s.lastUpdate == target[LastUpdate])
  }

  predicate ApplicationAtTarget(r: Repo, p: Plan) {
    p.opportunityKey.Some? && p.opportunityKey.value in r.states && AtTarget(r.states[p.opportunityKey.value], p.target)
  }

  function Snapshot(r: Repo, p: Plan, status: ExecutionStatus, executed: bool, repaired: bool): ExecutionResult {
    ExecutionResult(status, executed, p.outcomeKey in r.outcomes, ApplicationAtTarget(r, p),
                    p.pipelineKey.Some? && p.pipelineKey.value in r.pipelines,
                    p.opportunityKey.Some? && p.opportunityKey.value in r.derived, repaired)
  }

  /** The four ordered writes; false when one of them raised. */
  function WriteSet(r: Repo, p: Plan): (Repo, bool)
    requires CanMutate(p)
  {
    var (r1, w1) := AppendOutcome(r, p.outcomeKey);
    if Raised(w1) then (r1, false)
    else
      var (r2, w2) := UpdateApplication(r1, p.opportunityKey.value, p.expected.value, p.target);
      if Raised(w2) then (r2, false)
      else
        var (r3, w3) := AppendPipeline(r2, p.pipelineKey.value);
        if Raised(w3) then (r3, false)
        else
          var (r4, w4) := ReconcileDerived(r3, p.opportunityKey.value);
          (r4, !Raised(w4))
  }

  /** Filling gaps: completed writes are kept, and a state that moved on is left alone. */
  function Repair(r: Repo, p: Plan): (Repo, bool)
    requires CanMutate(p)
  {
    var (r1, w1) := AppendOutcome(r, p.outcomeKey);
    if Raised(w1) then (r1, false)
    else
      var (r2, done) :=
        if ApplicationAtTarget(r1, p) then (r1, true)
        else if p.opportunityKey.value !in r1.states
                || FingerprintOf(r1.states[p.opportunityKey.value]) != p.expected.value then (r1, false)
        else
          var (r', w) := UpdateApplication(r1, p.opportunityKey.value, p.expected.value, p.target);
          (r', !Raised(w));
      if !done then (r2, false)
      else
        var (r3, w3) := AppendPipeline(r2, p.pipelineKey.value);
        if Raised(w3) then (r3, false)
        else
          var (r4, w4) := ReconcileDerived(r3, p.opportunityKey.value);
          (r4, !Raised(w4))
  }

  function AfterFailure(r: Repo, p: Plan): (Repo, ExecutionResult)
    requires CanMutate(p)
  {
    var (repaired, ok) := Repair(r, p);
    var executed := repaired.applicationMutations > 0;
    var result := Snapshot(repaired, p, if ok then PartialWriteRepaired else RepairFailed, executed, true);
    (repaired, if ok && !result.PostconditionPassed() then result.(status := RepairFailed) else result)
  }

  function Execute(r: Repo, p: Plan, a: Authority): (Repo, Result<ExecutionResult, MutationError>) {
    if !a.Valid() then (r, Err(AuthorityRefused))
    else if p.disposition == DuplicateSuppressed then
      (r, Ok(ExecutionResult(Suppressed, false, true, false, false, false, false)))
    else if p.disposition == KillSwitched || !a.mutationFlag then
      (r, Ok(ExecutionResult(KillSwitchOff, false, p.outcomeKey in r.outcomes, false, false, false, false)))
    else if p.disposition != Eligible || !p.shouldMutate then
      (r, Ok(ExecutionResult(Refused, false, p.outcomeKey in r.outcomes, false, false, false, false)))
    else if !CanMutate(p) then (r, Ok(ExecutionResult(Refused, false, false, false, false, false, false)))
    else if !PatchValid(p) then (r, Err(PatchRefused))
    else if p.opportunityKey.value !in r.states || FingerprintOf(r.states[p.opportunityKey.value]) != p.expected.value then
      (r, Ok(ExecutionResult(ConcurrentChange, false, p.outcomeKey in r.outcomes, false,
                             p.pipelineKey.value in r.pipelines, false, false)))
    else if p.outcomeKey in r.outcomes || p.pipelineKey.value in r.pipelines then
      (r, Ok(Snapshot(r, p, Suppressed, false, false)))
    else
      var (written, ok) := WriteSet(r, p);
      var result := Snapshot(written, p, Committed, true, false);
      if ok && result.PostconditionPassed() then (written, Ok(result))
      else
        var (repaired, outcome) := AfterFailure(written, p);
        (repaired, Ok(outcome))
  }

  // ----- The executor over the repository object

  method RepairMissing(repo: InMemoryMutationRepository, p: Plan) returns (ok: bool)
    requires CanMutate(p)
    modifies repo
    ensures (repo.View(), ok) == Repair(old(repo.View()), p)
  {
    var w := repo.AppendOutcomeKey(p.outcomeKey);
    if Raised(w) {
      return false;
    }
    var key := p.opportunityKey.value;
    if !(key in repo.states && AtTarget(repo.states[key], p.target)) {
      if key !in repo.states || FingerprintOf(repo.states[key]) != p.expected.value {
        return false;
      }
      w := repo.Update(key, p.expected.value, p.target);
      if Raised(w) {
        return false;
      }
    }
    w := repo.AppendPipelineKey(p.pipelineKey.value);
    if Raised(w) {
      return false;
    }
    w := repo.Reconcile(key);
    return !Raised(w);
  }

  method SnapshotResult(repo: InMemoryMutationRepository, p: Plan, status: ExecutionStatus, executed: bool, repaired: bool)
    returns (result: ExecutionResult)
    ensures result == Snapshot(repo.View(), p, status, executed, repaired)
  {
    var atTarget := false;
    if p.opportunityKey.Some? && p.opportunityKey.value in repo.states {
      atTarget := AtTarget(repo.states[p.opportunityKey.value], p.target);
    }
    result := ExecutionResult(status, executed, p.outcomeKey in repo.outcomeKeys, atTarget,
                              p.pipelineKey.Some? && p.pipelineKey.value in repo.pipelineKeys,
                              p.opportunityKey.Some? && p.opportunityKey.value in repo.derivedReconciled, repaired);
  }

  method WriteOrdered(repo: InMemoryMutationRepository, p: Plan) returns (ok: bool)
    requires CanMutate(p)
    modifies repo
    ensures (repo.View(), ok) == WriteSet(old(repo.View()), p)
  {
    var w := repo.AppendOutcomeKey(p.outcomeKey);
    if Raised(w) {
      return false;
    }
    w := repo.Update(p.opportunityKey.value, p.expected.value, p.target);
    if Raised(w) {
      return false;
    }
    w := repo.AppendPipelineKey(p.pipelineKey.value);
    if Raised(w) {
      return false;
    }
    w := repo.Reconcile(p.opportunityKey.value);
    return !Raised(w);
  }

  method ExecuteGuardedMutation(repo: InMemoryMutationRepository, p: Plan, a: Authority)
    returns (r: Result<ExecutionResult, MutationError>)
    modifies repo
    ensures (repo.View(), r) == Execute(old(repo.View()), p, a)
  {
    if !a.Valid() {
      return Err(AuthorityRefused);
    }
    if p.disposition == DuplicateSuppressed {
      return Ok(ExecutionResult(Suppressed, false, true, false, false, false, false));
    }
    if p.disposition == KillSwitched || !a.mutationFlag {
      return Ok(ExecutionResult(KillSwitchOff, false, p.outcomeKey in repo.outcomeKeys, false, false, false, false));
    }
    if p.disposition != Eligible || !p.shouldMutate {
      return Ok(ExecutionResult(Refused, false, p.outcomeKey in repo.outcomeKeys, false, false, false, false));
    }
    if !CanMutate(p) {
      return Ok(ExecutionResult(Refused, false, false, false, false, false, false));
    }
    if !PatchValid(p) {
      return Err(PatchRefused);
    }
    var key, pipeline := p.opportunityKey.value, p.pipelineKey.value;
    if key !in repo.states || FingerprintOf(repo.states[key]) != p.expected.value {
      return Ok(ExecutionResult(ConcurrentChange, false, p.outcomeKey in repo.outcomeKeys, false,
                                pipeline in repo.pipelineKeys, false, false));
    }
    if p.outcomeKey in repo.outcomeKeys || pipeline in repo.pipelineKeys {
      var seen := SnapshotResult(repo, p, Suppressed, false, false);
      return Ok(seen);
    }
    var ok := WriteOrdered(repo, p);
    var result := SnapshotResult(repo, p, Committed, true, false);
    if !ok || !result.PostconditionPassed() {
      ok := RepairMissing(repo, p);
      result := SnapshotResult(repo, p, if ok then PartialWriteRepaired else RepairFailed,
                               repo.applicationMutationCount > 0, true);
      if ok && !result.PostconditionPassed() {
        result := result.(status := RepairFailed);
      }
    }
    return Ok(result);
  }
}
