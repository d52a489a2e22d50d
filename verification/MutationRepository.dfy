/**
 The stateful repository of guarded mutations: compare-and-set on the
 opportunity, append-only key sets, counters, and deterministic failure
 injection. `armed` is the set of boundaries that will still fail once; the
 original arms at most one.
 */
module MutationRepository {
  import opened Wrappers
  import opened Indexing
  import opened GuardedMutation

  datatype Boundary = AfterOutcome | AfterApplication | AfterPipeline | AfterDerived

  datatype Repo = Repo(states: map<string, OpportunityState>, outcomes: set<string>, pipelines: set<string>,
                       derived: set<string>, armed: set<Boundary>, applicationMutations: nat, outcomeAppends: nat,
                       pipelineAppends: nat, derivedReconciles: nat)

  /** What a write returns: whether it changed anything, or the exception it raised. */
  datatype Written = Wrote(changed: bool) | InjectedFailure | ConcurrentMutation | UnknownOpportunity

  predicate Raised(w: Written) {
    !w.Wrote?
  }

  function MaybeFail(r: Repo, b: Boundary): (Repo, Written) {
    if b in r.armed then (r.(armed := r.armed - {b}), InjectedFailure) else (r, Wrote(true))
  }

  function AppendOutcome(r: Repo, key: string): (Repo, Written) {
    if key in r.outcomes then (r, Wrote(false))
    else MaybeFail(r.(outcomes := r.outcomes + {key}, outcomeAppends := r.outcomeAppends + 1), AfterOutcome)
  }

  /** `replace(current, **mapped)`: only the three modelled columns are written. */
  function Patched(s: OpportunityState, target: map<Field, string>): OpportunityState {
    s.(status := if StatusField in target then target[StatusField] else s.status,
       appliedDate := if AppliedDate in target then target[AppliedDate] else s.appliedDate,
       lastUpdate := if LastUpdate in target then target[LastUpdate] else s.lastUpdate)
  }

  function UpdateApplication(r: Repo, key: string, expected: Fingerprint, target: map<Field, string>): (Repo, Written) {
    if key !in r.states then (r, UnknownOpportunity)
    else if FingerprintOf(r.states[key]) != expected then (r, ConcurrentMutation)
    else
      var patched := Patched(r.states[key], target);
      if patched == r.states[key] then (r, Wrote(false))
      else
        MaybeFail(r.(states := r.states[key := patched], applicationMutations := r.applicationMutations + 1),
                  AfterApplication)
  }

  function AppendPipeline(r: Repo, key: string): (Repo, Written) {
    if key in r.pipelines then (r, Wrote(false))
    else MaybeFail(r.(pipelines := r.pipelines + {key}, pipelineAppends := r.pipelineAppends + 1), AfterPipeline)
  }

  function ReconcileDerived(r: Repo, key: string): (Repo, Written) {
    if key in r.derived then (r, Wrote(false))
    else MaybeFail(r.(derived := r.derived + {key}, derivedReconciles := r.derivedReconciles + 1), AfterDerived)
  }

  // ----- Each write by its answer

  /** Compare and set: what each answer means, and the one change there can be. */
  lemma UpdateIff(r: Repo, key: string, expected: Fingerprint, target: map<Field, string>)
    ensures var (after, w) := UpdateApplication(r, key, expected, target);
            var current := key in r.states && FingerprintOf(r.states[key]) == expected;
            var changes := current && Patched(r.states[key], target) != r.states[key];
            && (w == UnknownOpportunity <==> key !in r.states)
            && (w == ConcurrentMutation <==> key in r.states && !current)
            && (w == Wrote(false) <==> current && !changes)
            && (w == InjectedFailure <==> changes && AfterApplication in r.armed)
            && (w == Wrote(true) <==> changes && AfterApplication !in r.armed)
            && after == if changes then
                          Repo(r.states[key := Patched(r.states[key], target)], r.outcomes, r.pipelines, r.derived,
                               r.armed - {AfterApplication}, r.applicationMutations + 1, r.outcomeAppends,
                               r.pipelineAppends, r.derivedReconciles)
                        else r
  {
    assert AfterApplication !in r.armed ==> r.armed - {AfterApplication} == r.armed;
  }

  lemma PatchedIs(s: OpportunityState, target: map<Field, string>)
    ensures var t := Patched(s, target);
            && t.company == s.company && t.role == s.role && t.country == s.country
            && t.verification == s.verification && t.urlStatus == s.urlStatus
            && (t.status == s.status || (StatusField in target && t.status == target[StatusField]))
            && (t.appliedDate == s.appliedDate || (AppliedDate in target && t.appliedDate == target[AppliedDate]))
            && (t.lastUpdate == s.lastUpdate || (LastUpdate in target && t.lastUpdate == target[LastUpdate]))
            && (StatusField in target ==> t.status == target[StatusField])
            && (AppliedDate in target ==> t.appliedDate == target[AppliedDate])
            && (LastUpdate in target ==> t.lastUpdate == target[LastUpdate])
  {
  }

  /** The three append-only writes: a new key is added and counted, even when the write then fails. */
  lemma AppendIff(r: Repo, key: string)
    ensures var (after, w) := AppendOutcome(r, key);
            && (w == Wrote(false) <==> key in r.outcomes)
            && (w == InjectedFailure <==> key !in r.outcomes && AfterOutcome in r.armed)
            && (w == Wrote(true) <==> key !in r.outcomes && AfterOutcome !in r.armed)
            && after == if key in r.outcomes then r
                        else r.(outcomes := r.outcomes + {key}, outcomeAppends := r.outcomeAppends + 1,
                                armed := r.armed - {AfterOutcome})
    ensures var (after, w) := AppendPipeline(r, key);
            && (w == Wrote(false) <==> key in r.pipelines)
            && (w == InjectedFailure <==> key !in r.pipelines && AfterPipeline in r.armed)
            && (w == Wrote(true) <==> key !in r.pipelines && AfterPipeline !in r.armed)
            && after == if key in r.pipelines then r
                        else r.(pipelines := r.pipelines + {key}, pipelineAppends := r.pipelineAppends + 1,
                                armed := r.armed - {AfterPipeline})
    ensures var (after, w) := ReconcileDerived(r, key);
            && (w == Wrote(false) <==> key in r.derived)
            && (w == InjectedFailure <==> key !in r.derived && AfterDerived in r.armed)
            && (w == Wrote(true) <==> key !in r.derived && AfterDerived !in r.armed)
            && after == if key in r.derived then r
                        else r.(derived := r.derived + {key}, derivedReconciles := r.derivedReconciles + 1,
                                armed := r.armed - {AfterDerived})
  {
    assert AfterOutcome !in r.armed ==> r.armed - {AfterOutcome} == r.armed;
    assert AfterPipeline !in r.armed ==> r.armed - {AfterPipeline} == r.armed;
    assert AfterDerived !in r.armed ==> r.armed - {AfterDerived} == r.armed;
  }

  class InMemoryMutationRepository {
    var states: map<string, OpportunityState>
    var outcomeKeys: set<string>
    var pipelineKeys: set<string>
    var derivedReconciled: set<string>
    var failOnceAfter: Option<Boundary>
    var failureUsed: bool
    var applicationMutationCount: nat
    var outcomeAppendCount: nat
    var pipelineAppendCount: nat
    var derivedReconcileCount: nat

    ghost function View(): Repo
      reads this
    {
      Repo(states, outcomeKeys, pipelineKeys, derivedReconciled,
           if failOnceAfter.Some? && !failureUsed then {failOnceAfter.value} else {},
           applicationMutationCount, outcomeAppendCount, pipelineAppendCount, derivedReconcileCount)
    }

    /** Later entries of the list replace earlier ones with the same opportunity key. */
    constructor (initial: seq<OpportunityState>, outcomes: set<string>, pipelines: set<string>,
                 failOnceAfter: Option<Boundary>)
      ensures View() == Repo(Indexed(KeyOfOpportunity(), initial), outcomes, pipelines, {},
                             if failOnceAfter.Some? then {failOnceAfter.value} else {}, 0, 0, 0, 0)
    {
      states := Indexed(KeyOfOpportunity(), initial);
      outcomeKeys, pipelineKeys, derivedReconciled := outcomes, pipelines, {};
      this.failOnceAfter := failOnceAfter;
      failureUsed := false;
      applicationMutationCount, outcomeAppendCount, pipelineAppendCount, derivedReconcileCount := 0, 0, 0, 0;
    }

    method FailIfArmed(boundary: Boundary) returns (w: Written)
      modifies this`failureUsed
      ensures (View(), w) == MaybeFail(old(View()), boundary)
    {
      if failOnceAfter == Some(boundary) && !failureUsed {
        failureUsed := true;
        assert old(View()).armed - {boundary} == {};
        return InjectedFailure;
      }
      return Wrote(true);
    }

    method AppendOutcomeKey(key: string) returns (w: Written)
      modifies this
      ensures (View(), w) == AppendOutcome(old(View()), key)
    {
      if key in outcomeKeys {
        return Wrote(false);
      }
      outcomeKeys := outcomeKeys + {key};
      outcomeAppendCount := outcomeAppendCount + 1;
      w := FailIfArmed(AfterOutcome);
    }

    method Update(key: string, expected: Fingerprint, target: map<Field, string>) returns (w: Written)
      modifies this
      ensures (View(), w) == UpdateApplication(old(View()), key, expected, target)
    {
      if key !in states {
        return UnknownOpportunity;
      }
      var current := states[key];
      if FingerprintOf(current) != expected {
        return ConcurrentMutation;
      }
      var patched := Patched(current, target);
      if patched == current {
        return Wrote(false);
      }
      states := states[key := patched];
      applicationMutationCount := applicationMutationCount + 1;
      w := FailIfArmed(AfterApplication);
    }

    method AppendPipelineKey(key: string) returns (w: Written)
      modifies this
      ensures (View(), w) == AppendPipeline(old(View()), key)
    {
      if key in pipelineKeys {
        return Wrote(false);
      }
      pipelineKeys := pipelineKeys + {key};
      pipelineAppendCount := pipelineAppendCount + 1;
      w := FailIfArmed(AfterPipeline);
    }

    method Reconcile(key: string) returns (w: Written)
      modifies this
      ensures (View(), w) == ReconcileDerived(old(View()), key)
    {
      if key in derivedReconciled {
        return Wrote(false);
      }
      derivedReconciled := derivedReconciled + {key};
      derivedReconcileCount := derivedReconcileCount + 1;
      w := FailIfArmed(AfterDerived);
    }
  }

  function KeyOfOpportunity(): OpportunityState -> string {
    (s: OpportunityState) => OpportunityKey(s)
  }
}
