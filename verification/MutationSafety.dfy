/**
 What guarded mutation guarantees: for one execution under any injected
 failures, and for any run of planners and executors whose plans are made on any
 observation whatever and executed at any later time.
 */
module MutationSafety {
  import opened Wrappers
  import opened Identity
  import opened GuardedMutation
  import opened MutationRepository
  import opened MutationExecutor

  // ----- One execution

  /** The execution-time checks: the fingerprint still matches and neither key is present. */
  predicate Fresh(r: Repo, p: Plan) {
    && CanMutate(p)
    && p.opportunityKey.value in r.states && FingerprintOf(r.states[p.opportunityKey.value]) == p.expected.value
    && p.outcomeKey !in r.outcomes && p.pipelineKey.value !in r.pipelines
  }

  /** The repository after exactly the first `n` of the four ordered writes. */
  function FirstWrites(r: Repo, p: Plan, n: nat): Repo
    requires Fresh(r, p) && n <= 4
  {
    var key := p.opportunityKey.value;
    var derivedNew := n >= 4 && key !in r.derived;
    r.(outcomes := if n >= 1 then r.outcomes + {p.outcomeKey} else r.outcomes,
       outcomeAppends := r.outcomeAppends + if n >= 1 then 1 else 0,
       states := if n >= 2 then r.states[key := Patched(r.states[key], p.target)] else r.states,
       applicationMutations := r.applicationMutations + if n >= 2 then 1 else 0,
       pipelines := if n >= 3 then r.pipelines + {p.pipelineKey.value} else r.pipelines,
       pipelineAppends := r.pipelineAppends + if n >= 3 then 1 else 0,
       derived := if derivedNew then r.derived + {key} else r.derived,
       derivedReconciles := r.derivedReconciles + if derivedNew then 1 else 0,
       armed := {})
  }

  /** How many writes survive the failures still armed: each failure costs one attempt and there are two. */
  function SurvivingWrites(armed: set<Boundary>): (n: nat)
    ensures 2 <= n <= 4
  {
    if AfterOutcome in armed && AfterApplication in armed then 2
    else if AfterPipeline in armed && (AfterOutcome in armed || AfterApplication in armed) then 3
    else 4
  }

  lemma PatchMovesState(s: OpportunityState, p: Plan)
    requires WellPlanned(p) && FingerprintOf(s) == p.expected.value
    ensures Patched(s, p.target) != s && AtTarget(Patched(s, p.target), p.target) && !AtTarget(s, p.target)
    ensures Patched(s, p.target).status == p.toState.value && Strip(s.status) == p.fromState.value
  {
    AllowedIsTrimmedAndDescending((p.fromState.value, p.toState.value, p.rule.value));
  }

  /** The state, keys and counters of a repository, without the failures still armed. */
  function Persisted(r: Repo): Repo {
    r.(armed := {})
  }

  lemma WriteSetEffect(r: Repo, p: Plan)
    requires WellPlanned(p) && Fresh(r, p)
    ensures var (written, ok) := WriteSet(r, p);
            var n := if AfterOutcome in r.armed then 1 else if AfterApplication in r.armed then 2
                     else if AfterPipeline in r.armed then 3 else 4;
            && Persisted(written) == FirstWrites(r, p, n)
            && (n < 4 ==> !ok && written.armed == r.armed - {if n == 1 then AfterOutcome
                                                            else if n == 2 then AfterApplication else AfterPipeline})
            && (n == 4 ==> (ok <==> AfterDerived !in r.armed || p.opportunityKey.value in r.derived)
                           && written.armed <= r.armed && AfterApplication !in written.armed && AfterPipeline !in written.armed)
  {
    PatchMovesState(r.states[p.opportunityKey.value], p);
  }

  lemma RepairEffect(r: Repo, p: Plan, n: nat, w: Repo)
    requires WellPlanned(p) && Fresh(r, p) && 1 <= n <= 4
    requires Persisted(w) == FirstWrites(r, p, n)
    ensures var (repaired, ok) := Repair(w, p);
            var m := if n == 1 && AfterApplication in w.armed then 2
                     else if n <= 2 && AfterPipeline in w.armed then 3 else 4;
            && Persisted(repaired) == FirstWrites(r, p, m)
            && (ok <==> m == 4 && (n == 4 || AfterDerived !in w.armed || p.opportunityKey.value in r.derived))
  {
    var s := r.states[p.opportunityKey.value];
    PatchMovesState(s, p);
    assert w.states == FirstWrites(r, p, n).states && w.outcomes == FirstWrites(r, p, n).outcomes;
    assert w.pipelines == FirstWrites(r, p, n).pipelines && w.derived == FirstWrites(r, p, n).derived;
  }

  /**
   Under any set of injected failures, what an execution leaves behind is a
   prefix of outcome, application, pipeline, derived; its length is a function
   of the failures alone, and never 0 or 1.
   */
  lemma ExecuteWritesPrefix(r: Repo, p: Plan, a: Authority)
    requires WellPlanned(p) && Fresh(r, p) && a.Valid() && a.mutationFlag
    ensures var (after, result) := Execute(r, p, a);
            var n := SurvivingWrites(r.armed);
            && Persisted(after) == FirstWrites(r, p, n)
            && result.Ok? && result.value.outcomePresent && result.value.applicationAtTarget
            && (result.value.PostconditionPassed() <==> n == 4 || (n == 3 && p.opportunityKey.value in r.derived))
            && (result.value.status == Committed || result.value.status == PartialWriteRepaired ==> n == 4)
            && (result.value.status == Committed ==> !result.value.repairAttempted)
            && result.value.status in {Committed, PartialWriteRepaired, RepairFailed}
  {
    PatchMovesState(r.states[p.opportunityKey.value], p);
    var (w, ok) := WriteSet(r, p);
    WriteSetEffect(r, p);
    var n := if AfterOutcome in r.armed then 1 else if AfterApplication in r.armed then 2
             else if AfterPipeline in r.armed then 3 else 4;
    RepairEffect(r, p, n, w);
    SnapshotReads(r, p, n, w);
    SnapshotReads(r, p, SurvivingWrites(r.armed), Repair(w, p).0);
  }

  /** What a snapshot reports after the first `n` writes. */
  lemma SnapshotReads(r: Repo, p: Plan, n: nat, w: Repo)
    requires WellPlanned(p) && Fresh(r, p) && 1 <= n <= 4
    requires Persisted(w) == FirstWrites(r, p, n)
    ensures forall status, executed, repaired ::
              var result := Snapshot(w, p, status, executed, repaired);
              && result.outcomePresent
              && (result.applicationAtTarget <==> n >= 2)
              && (result.pipelinePresent <==> n >= 3)
              && (result.derivedReconciled <==> n == 4 || p.opportunityKey.value in r.derived)
  {
    PatchMovesState(r.states[p.opportunityKey.value], p);
    assert w.states == FirstWrites(r, p, n).states && w.outcomes == FirstWrites(r, p, n).outcomes;
    assert w.pipelines == FirstWrites(r, p, n).pipelines && w.derived == FirstWrites(r, p, n).derived;
  }

  lemma OneFailureStatus(r: Repo, p: Plan, a: Authority)
    requires WellPlanned(p) && Fresh(r, p) && a.Valid() && a.mutationFlag
    requires forall x, y | x in r.armed && y in r.armed :: x == y
    ensures var result := Execute(r, p, a).1;
            && result.Ok? && result.value.status in {Committed, PartialWriteRepaired}
            && (r.armed == {} ==> result.value.status == Committed)
  {
    WriteSetEffect(r, p);
    var n := if AfterOutcome in r.armed then 1 else if AfterApplication in r.armed then 2
             else if AfterPipeline in r.armed then 3 else 4;
    RepairEffect(r, p, n, WriteSet(r, p).0);
  }

  /** With at most one failure armed, an execution ends complete and says so. */
  lemma OneFailureIsSurvived(r: Repo, p: Plan, a: Authority)
    requires WellPlanned(p) && Fresh(r, p) && a.Valid() && a.mutationFlag
    requires forall x, y | x in r.armed && y in r.armed :: x == y
    ensures var (after, result) := Execute(r, p, a);
            && Persisted(after) == FirstWrites(r, p, 4)
            && result.Ok? && result.value.PostconditionPassed()
            && result.value.status in {Committed, PartialWriteRepaired}
            && (r.armed == {} ==> result.value.status == Committed)
  {
    assert SurvivingWrites(r.armed) == 4;
    ExecuteWritesPrefix(r, p, a);
    OneFailureStatus(r, p, a);
  }

  /**
   One failure at any boundary is invisible afterwards: the same states, keys
   and derived rows as the failure-free execution, each counter raised by
   exactly one, and the postcondition holds.
   */
  lemma SingleFailureIsTransparent(r: Repo, p: Plan, a: Authority, failing: Boundary)
    requires WellPlanned(p) && Fresh(r, p) && a.Valid() && a.mutationFlag
    ensures var (after, result) := Execute(r.(armed := {failing}), p, a);
            var (clean, committed) := Execute(r.(armed := {}), p, a);
            && Persisted(after) == Persisted(clean)
            && after.applicationMutations == r.applicationMutations + 1
            && after.outcomeAppends == r.outcomeAppends + 1
            && after.pipelineAppends == r.pipelineAppends + 1
            && committed.Ok? && committed.value.PostconditionPassed() && committed.value.status == Committed
            && result.Ok? && result.value.PostconditionPassed()
            && result.value.status in {Committed, PartialWriteRepaired}
  {
    var one, none := r.(armed := {failing}), r.(armed := {});
    OneFailureIsSurvived(one, p, a);
    OneFailureIsSurvived(none, p, a);
    var after := Execute(one, p, a).0;
    assert FirstWrites(one, p, 4) == FirstWrites(none, p, 4);
    assert Persisted(after).applicationMutations == after.applicationMutations;
    assert Persisted(after).outcomeAppends == after.outcomeAppends;
    assert Persisted(after).pipelineAppends == after.pipelineAppends;
  }

  /**
   A later retry of the same plan never repairs: once a first execution has
   written anything, the second changes nothing, so the gap left by two
   failures stays. The retry leaves a complete write-set exactly when the first
   execution already had.
   */
  lemma RetryDoesNotRepair(r: Repo, p: Plan, a: Authority, retrying: Authority, later: set<Boundary>)
    requires WellPlanned(p) && Fresh(r, p) && a.Valid() && a.mutationFlag
    ensures var first := Execute(r, p, a).0.(armed := later);
            && Execute(first, p, retrying).0 == first
            && (p.pipelineKey.value in first.pipelines <==> SurvivingWrites(r.armed) >= 3)
            && (p.opportunityKey.value in first.derived <==>
                SurvivingWrites(r.armed) == 4 || p.opportunityKey.value in r.derived)
  {
    ExecuteWritesPrefix(r, p, a);
    var first := Execute(r, p, a).0.(armed := later);
    assert first.outcomes == FirstWrites(r, p, SurvivingWrites(r.armed)).outcomes;
    assert first.pipelines == FirstWrites(r, p, SurvivingWrites(r.armed)).pipelines;
    assert first.derived == FirstWrites(r, p, SurvivingWrites(r.armed)).derived;
  }

  /** A concrete execution that two failures leave without its pipeline row, and that no retry completes. */
  lemma TwoFailuresLeaveAGap(a: Authority, retrying: Authority)
    requires a.Valid() && a.mutationFlag
    ensures var s := OpportunityState("Acme", "Analyst", "", "To Apply", "", "", "", "");
            var target := map[StatusField := "Applied", AppliedDate := "2026-01-02", LastUpdate := "2026-01-02"];
            var p := Plan(Eligible, true, "gmail:1", Some("pipe:1"), Some("acme:analyst"), Some("To Apply"),
                          Some("Applied"), Some("ST-01"), Some(FingerprintOf(s)), target);
            var r := Repo(map["acme:analyst" := s], {}, {}, {}, {AfterOutcome, AfterApplication}, 0, 0, 0, 0);
            && WellPlanned(p) && Fresh(r, p)
            && "pipe:1" !in Execute(Execute(r, p, a).0, p, retrying).0.pipelines
            && Execute(r, p, a).0.states["acme:analyst"].status == "Applied"
  {
    var s := OpportunityState("Acme", "Analyst", "", "To Apply", "", "", "", "");
    var target := map[StatusField := "Applied", AppliedDate := "2026-01-02", LastUpdate := "2026-01-02"];
    var p := Plan(Eligible, true, "gmail:1", Some("pipe:1"), Some("acme:analyst"), Some("To Apply"),
                  Some("Applied"), Some("ST-01"), Some(FingerprintOf(s)), target);
    var r := Repo(map["acme:analyst" := s], {}, {}, {}, {AfterOutcome, AfterApplication}, 0, 0, 0, 0);
    AllowedIsTrimmedAndDescending(("To Apply", "Applied", "ST-01"));
    var after := Execute(r, p, a).0;
    RetryDoesNotRepair(r, p, a, retrying, after.armed);
    assert after.(armed := after.armed) == after;
    ExecuteWritesPrefix(r, p, a);
    assert after.states == FirstWrites(r, p, 2).states;
  }

  // ----- Runs

  /** A plan is made from a signal and any observation at all, then executed. */
  datatype Attempt = Attempt(signal: Signal, observed: Option<OpportunityState>, outcomeLogged: bool,
                             pipelineLogged: bool, planner: Authority, executor: Authority)

  datatype Step = Rearm(failures: set<Boundary>) | Perform(attempt: Attempt)

  function PlanOf(t: Attempt): Result<Plan, MutationError> {
    PlanOutcome(t.signal, t.observed, t.outcomeLogged, t.pipelineLogged, t.planner)
  }

  function Next(r: Repo, step: Step): Repo {
    match step
    case Rearm(failures) => r.(armed := failures)
    case Perform(t) => if PlanOf(t).Err? then r else Execute(r, PlanOf(t).value, t.executor).0
  }

  function After(r: Repo, steps: seq<Step>): Repo {
    if steps == [] then r else Next(After(r, steps[..|steps| - 1]), steps[|steps| - 1])
  }

  /** A step that gets past every check of planner and executor. */
  predicate Writes(r: Repo, step: Step) {
    && step.Perform? && PlanOf(step.attempt).Ok?
    && step.attempt.executor.Valid() && step.attempt.executor.mutationFlag
    && Fresh(r, PlanOf(step.attempt).value)
  }

  lemma StepEffect(r: Repo, step: Step)
    ensures if Writes(r, step) then
              var p := PlanOf(step.attempt).value;
              && WellPlanned(p) && Persisted(Next(r, step)) == FirstWrites(r, p, SurvivingWrites(r.armed))
              && Some(p.outcomeKey) == OutcomeKey(step.attempt.signal.messageId)
            else Persisted(Next(r, step)) == Persisted(r)
  {
    if step.Perform? && PlanOf(step.attempt).Ok? {
      var t := step.attempt;
      PlannerIsGuarded(t.signal, t.observed, t.outcomeLogged, t.pipelineLogged, t.planner);
      if Writes(r, step) {
        ExecuteWritesPrefix(r, PlanOf(t).value, t.executor);
      }
    }
  }

  /** The opportunity a writing step is about. */
  function Subject(step: Step): string
    requires step.Perform? && PlanOf(step.attempt).Ok? && CanMutate(PlanOf(step.attempt).value)
  {
    PlanOf(step.attempt).value.opportunityKey.value
  }

  /**
   Every status change is an allowlisted transition from the stored status, up
   to surrounding white space, and it descends in rank; nothing else changes.
   */
  lemma StatusChangesAreAllowed(r: Repo, step: Step, key: string)
    requires key in r.states
    ensures key in Next(r, step).states
    ensures var before, after := r.states[key], Next(r, step).states[key];
            before != after ==>
              && Writes(r, step) && key == Subject(step)
              && (exists rule :: (Strip(before.status), after.status, rule) in INITIAL_ALLOWED)
              && Rank(after.status) < Rank(before.status)
              && after.company == before.company && after.role == before.role && after.country == before.country
  {
    StepEffect(r, step);
    assert Next(r, step).states == Persisted(Next(r, step)).states;
    if Writes(r, step) {
      var p := PlanOf(step.attempt).value;
      var subject := r.states[p.opportunityKey.value];
      PatchMovesState(subject, p);
      assert Rank(p.fromState.value) == Rank(subject.status) by {
        AllowedIsTrimmedAndDescending((p.fromState.value, p.toState.value, p.rule.value));
      }
    }
  }

  /**
   The stored status itself, not only its trimmed form, is the source of an
   allowlisted transition exactly when it carries no surrounding white space:
   the fingerprint strips it, so a padded "Applied" can be rejected too.
   */
  lemma ExactSourceIffTrimmed(r: Repo, step: Step, key: string)
    requires key in r.states
    ensures key in Next(r, step).states
    ensures var before, after := r.states[key], Next(r, step).states[key];
            before != after ==>
              ((exists rule :: (before.status, after.status, rule) in INITIAL_ALLOWED)
               <==> Strip(before.status) == before.status)
  {
    StatusChangesAreAllowed(r, step, key);
    var before, after := r.states[key].status, Next(r, step).states[key].status;
    if exists rule :: (before, after, rule) in INITIAL_ALLOWED {
      var rule :| (before, after, rule) in INITIAL_ALLOWED;
      AllowedIsTrimmedAndDescending((before, after, rule));
    }
  }

  /** A repository that stores one opportunity, with a space after the status that was observed. */
  function PaddedRepo(s: OpportunityState): Repo {
    Repo(map[OpportunityKey(s) := s.(status := s.status + " ")], {}, {}, {}, {}, 0, 0, 0, 0)
  }

  function OneAttempt(signal: Signal, s: OpportunityState, a: Authority): Step {
    Perform(Attempt(signal, Some(s), false, false, a, a))
  }

  /** Whatever the rules permit for a state, they carry out on the padded one: its stored text is no allowed source. */
  lemma PaddedStatusIsMutated(s: OpportunityState, signal: Signal, a: Authority)
    requires a.Valid() && a.mutationFlag && Permitted(signal, s, a)
    ensures var r := PaddedRepo(s); var key := OpportunityKey(s);
            && key in Next(r, OneAttempt(signal, s, a)).states
            && var before, after := r.states[key], Next(r, OneAttempt(signal, s, a)).states[key];
               && before != after && Strip(before.status) != before.status
               && after.status == (if signal.event == Rejection then "Rejected" else "Applied")
               && !exists rule :: (before.status, after.status, rule) in INITIAL_ALLOWED
  {
    var r, step, key := PaddedRepo(s), OneAttempt(signal, s, a), OpportunityKey(s);
    PlannerMutatesIff(signal, s, false, false, a);
    PlannerIsGuarded(signal, Some(s), false, false, a);
    var p := PlanOf(step.attempt).value;
    AllowedIsTrimmedAndDescending((p.fromState.value, p.toState.value, p.rule.value));
    TrailingSpaceIsStripped(s.status);
    assert FingerprintOf(r.states[key]) == FingerprintOf(s);
    ExecuteWritesPrefix(r, p, a);
    PatchMovesState(r.states[key], p);
    assert Next(r, step).states == FirstWrites(r, p, 4).states;
    ExactSourceIffTrimmed(r, step, key);
  }

  /** An instance: a stored "Applied " is rejected on a plan made for "Applied". */
  lemma PaddedAppliedIsRejected()
    ensures var s := OpportunityState("Acme", "Analyst", "", "Applied", "", "", "", "");
            var signal := Signal("m", Rejection, "2026-01-02", High, true, "");
            var a := Authority(true, INITIAL_ALLOWED, true, true, true, false, false, false, false);
            var after := Next(PaddedRepo(s), OneAttempt(signal, s, a));
            && OpportunityKey(s) in after.states && after.states[OpportunityKey(s)].status == "Rejected"
            && PaddedRepo(s).states[OpportunityKey(s)].status == "Applied "
  {
    var s := OpportunityState("Acme", "Analyst", "", "Applied", "", "", "", "");
    var signal := Signal("m", Rejection, "2026-01-02", High, true, "");
    var a := Authority(true, INITIAL_ALLOWED, true, true, true, false, false, false, false);
    PresentIfFirstKept("m");
    PresentIfFirstKept("2026-01-02");
    PaddedStatusIsMutated(s, signal, a);
    assert "Applied" + " " == "Applied ";
  }

  /** Rejected is terminal, over any run. */
  lemma {:induction false} RejectedIsTerminal(r: Repo, steps: seq<Step>, key: string)
    requires key in r.states && Strip(r.states[key].status) == "Rejected"
    ensures key in After(r, steps).states && After(r, steps).states[key] == r.states[key]
  {
    if steps != [] {
      var n := |steps| - 1;
      RejectedIsTerminal(r, steps[..n], key);
      var last := After(r, steps[..n]);
      StatusChangesAreAllowed(last, steps[n], key);
      if Next(last, steps[n]).states[key] != last.states[key] {
        var rule :| (Strip(last.states[key].status), Next(last, steps[n]).states[key].status, rule) in INITIAL_ALLOWED;
        AllowedIsTrimmedAndDescending(("Rejected", Next(last, steps[n]).states[key].status, rule));
        assert false;
      }
    }
  }

  // ----- The bound on all mutations

  ghost function RankSum(states: map<string, OpportunityState>, keys: set<string>): nat
    requires keys <= states.Keys
  {
    if keys == {} then 0
    else
      var key :| key in keys;
      Rank(states[key].status) + RankSum(states, keys - {key})
  }

  /** What is left to mutate: the sum of the ranks of all opportunities. */
  ghost function Potential(states: map<string, OpportunityState>): nat {
    RankSum(states, states.Keys)
  }

  lemma {:induction false} RankSumPick(states: map<string, OpportunityState>, keys: set<string>, key: string)
    requires keys <= states.Keys && key in keys
    ensures RankSum(states, keys) == Rank(states[key].status) + RankSum(states, keys - {key})
    decreases keys
  {
    var chosen :| chosen in keys && RankSum(states, keys) == Rank(states[chosen].status) + RankSum(states, keys - {chosen});
    if chosen != key {
      RankSumPick(states, keys - {chosen}, key);
      RankSumPick(states, keys - {key}, chosen);
      assert keys - {chosen} - {key} == keys - {key} - {chosen};
    }
  }

  lemma {:induction false} RankSumFrame(a: map<string, OpportunityState>, b: map<string, OpportunityState>, keys: set<string>)
    requires keys <= a.Keys && keys <= b.Keys && forall k | k in keys :: a[k].status == b[k].status
    ensures RankSum(a, keys) == RankSum(b, keys) <= 2 * |keys|
    decreases keys
  {
    if keys != {} {
      var key :| key in keys;
      RankSumPick(a, keys, key);
      RankSumPick(b, keys, key);
      RankSumFrame(a, b, keys - {key});
    }
  }

  lemma PotentialAfterUpdate(states: map<string, OpportunityState>, key: string, s: OpportunityState)
    requires key in states
    ensures Potential(states[key := s]) == Potential(states) - Rank(states[key].status) + Rank(s.status)
  {
    var updated := states[key := s];
    assert updated.Keys == states.Keys;
    RankSumPick(states, states.Keys, key);
    RankSumPick(updated, updated.Keys, key);
    RankSumFrame(states, updated, states.Keys - {key});
  }

  lemma StepSpendsPotential(r: Repo, step: Step)
    ensures var after := Next(r, step);
            && after.states.Keys == r.states.Keys
            && r.applicationMutations <= after.applicationMutations
            && Potential(after.states) + after.applicationMutations <= Potential(r.states) + r.applicationMutations
  {
    StepEffect(r, step);
    var after := Next(r, step);
    assert after.states == Persisted(after).states && after.applicationMutations == Persisted(after).applicationMutations;
    if Writes(r, step) {
      var p := PlanOf(step.attempt).value;
      var key := p.opportunityKey.value;
      PatchMovesState(r.states[key], p);
      StatusChangesAreAllowed(r, step, key);
      PotentialAfterUpdate(r.states, key, Patched(r.states[key], p.target));
    }
  }

  /**
   In any run, each application mutation uses up rank: their total never
   exceeds the initial ranks, hence never twice the number of opportunities.
   */
  lemma {:induction false} MutationsAreBounded(r: Repo, steps: seq<Step>)
    ensures var after := After(r, steps);
            && after.states.Keys == r.states.Keys
            && Potential(after.states) + after.applicationMutations <= Potential(r.states) + r.applicationMutations
            && after.applicationMutations - r.applicationMutations <= 2 * |r.states|
  {
    RankSumFrame(r.states, r.states, r.states.Keys);
    if steps != [] {
      var n := |steps| - 1;
      MutationsAreBounded(r, steps[..n]);
      StepSpendsPotential(After(r, steps[..n]), steps[n]);
    }
  }

  // ----- Each message at most once

  lemma {:induction false} KeysOnlyGrow(r: Repo, steps: seq<Step>, i: nat)
    requires i <= |steps|
    ensures After(r, steps[..i]).outcomes <= After(r, steps).outcomes
    ensures After(r, steps[..i]).pipelines <= After(r, steps).pipelines
    ensures After(r, steps[..i]).derived <= After(r, steps).derived
    decreases |steps|
  {
    if i == |steps| {
      assert steps[..i] == steps;
    } else {
      var n := |steps| - 1;
      KeysOnlyGrow(r, steps[..n], i);
      assert steps[..n][..i] == steps[..i];
      var last := After(r, steps[..n]);
      StepEffect(last, steps[n]);
      assert After(r, steps).outcomes == Persisted(After(r, steps)).outcomes;
      assert After(r, steps).pipelines == Persisted(After(r, steps)).pipelines;
      assert After(r, steps).derived == Persisted(After(r, steps)).derived;
    }
  }

  /** One Gmail message, however often it is planned and executed, mutates at most once. */
  lemma {:induction false} MessageMutatesAtMostOnce(r: Repo, steps: seq<Step>, i: nat, j: nat)
    requires i < j < |steps|
    requires steps[i].Perform? && steps[j].Perform?
    requires Strip(steps[i].attempt.signal.messageId) == Strip(steps[j].attempt.signal.messageId)
    requires After(r, steps[..i + 1]).states != After(r, steps[..i]).states
    ensures After(r, steps[..j + 1]).states == After(r, steps[..j]).states
  {
    StatesChangeOnlyByWriting(r, steps, i);
    StatesChangeOnlyByWriting(r, steps, j);
    assert steps[..j][..i + 1] == steps[..i + 1];
    KeysOnlyGrow(r, steps[..j], i + 1);
  }

  /** A step that changes a state records the key of its message, which was absent before. */
  lemma {:induction false} StatesChangeOnlyByWriting(r: Repo, steps: seq<Step>, i: nat)
    requires i < |steps| && steps[i].Perform?
    ensures After(r, steps[..i + 1]).states != After(r, steps[..i]).states ==>
              var key := OutcomeKey(steps[i].attempt.signal.messageId);
              key.Some? && key.value in After(r, steps[..i + 1]).outcomes && key.value !in After(r, steps[..i]).outcomes
  {
    assert steps[..i + 1][..i] == steps[..i];
    var before := After(r, steps[..i]);
    StepEffect(before, steps[i]);
    var after := Next(before, steps[i]);
    assert after.states == Persisted(after).states && after.outcomes == Persisted(after).outcomes;
  }

  /** Conservation over any run: every counter is exactly the growth of what it counts. */
  lemma {:induction false} CountersCountKeys(r: Repo, steps: seq<Step>)
    ensures var after := After(r, steps);
            && after.outcomeAppends - r.outcomeAppends == |after.outcomes| - |r.outcomes|
            && after.pipelineAppends - r.pipelineAppends == |after.pipelines| - |r.pipelines|
            && after.derivedReconciles - r.derivedReconciles == |after.derived| - |r.derived|
            && after.pipelineAppends - r.pipelineAppends <= after.applicationMutations - r.applicationMutations
            && after.applicationMutations - r.applicationMutations == after.outcomeAppends - r.outcomeAppends
  {
    if steps != [] {
      var n := |steps| - 1;
      CountersCountKeys(r, steps[..n]);
      var last := After(r, steps[..n]);
      StepEffect(last, steps[n]);
      var after := Persisted(After(r, steps));
      assert after.outcomes == After(r, steps).outcomes && after.outcomeAppends == After(r, steps).outcomeAppends;
    }
  }
}
