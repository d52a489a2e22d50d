/**
 What the executor tells its caller: which answer it gives on which plan,
 repository and authority, that every flag of a report is what the repository
 holds, and that what was written is what the signal said.
 */
module MutationReports {
  import opened Wrappers
  import opened Identity
  import opened GuardedMutation
  import opened MutationRepository
  import opened MutationExecutor
  import opened MutationSafety

  /** An eligible plan under an open switch, complete. */
  predicate Ready(p: Plan, a: Authority) {
    && p.disposition == Eligible && p.shouldMutate && a.mutationFlag
    && p.opportunityKey != None && p.pipelineKey != None && p.expected != None
  }

  /** The opportunity is stored and looks as it did when the plan was made. */
  predicate Current(r: Repo, p: Plan) {
    && p.opportunityKey.Some? && p.expected.Some? && p.opportunityKey.value in r.states
    && FingerprintOf(r.states[p.opportunityKey.value]) == p.expected.value
  }

  predicate KeysFree(r: Repo, p: Plan) {
    p.outcomeKey !in r.outcomes && !(p.pipelineKey.Some? && p.pipelineKey.value in r.pipelines)
  }

  const WRITING := {Committed, PartialWriteRepaired, RepairFailed}

  /** Each answer is given exactly on its own condition. */
  lemma AnswerIff(r: Repo, p: Plan, a: Authority)
    ensures var result := Execute(r, p, a).1;
            && (result == Err(AuthorityRefused) <==> !a.Valid())
            && (result == Err(PatchRefused) <==> a.Valid() && Ready(p, a) && !PatchValid(p))
            && result != Err(ValueMissing)
    ensures var result := Execute(r, p, a).1;
            var switched := p.disposition == KillSwitched || !a.mutationFlag;
            result.Ok? ==>
              var status := result.value.status;
              && (status == Suppressed <==>
                  p.disposition == DuplicateSuppressed || (Ready(p, a) && Current(r, p) && !KeysFree(r, p)))
              && (status == KillSwitchOff <==> p.disposition != DuplicateSuppressed && switched)
              && (status == Refused <==> p.disposition != DuplicateSuppressed && !switched && !Ready(p, a))
              && (status == ConcurrentChange <==> Ready(p, a) && !Current(r, p))
              && (status in WRITING <==> Ready(p, a) && Current(r, p) && KeysFree(r, p))
  {
    if Ready(p, a) && Current(r, p) && KeysFree(r, p) && a.Valid() && PatchValid(p) {
      WritingAnswers(r, p, a);
    }
  }

  /** The writing part of an execution: the ordered writes, and a repair unless all four are in place. */
  lemma WritingAnswers(r: Repo, p: Plan, a: Authority)
    requires a.Valid() && Ready(p, a) && PatchValid(p) && Current(r, p) && KeysFree(r, p)
    ensures var (after, result) := Execute(r, p, a);
            && result.Ok? && result.value.status in WRITING && ReadsRepository(result.value, after, p)
            && (result.value.mutationExecuted <==> result.value.status == Committed || after.applicationMutations > 0)
            && (result.value.repairAttempted <==> result.value.status != Committed)
            && (result.value.status != RepairFailed ==> result.value.PostconditionPassed())
  {
    var (written, ok) := WriteSet(r, p);
    SnapshotIsRead(written, p, Committed, true, false);
    RepairAnswers(written, p);
    assert Execute(r, p, a) == if ok && Snapshot(written, p, Committed, true, false).PostconditionPassed() then
                                 (written, Ok(Snapshot(written, p, Committed, true, false)))
                               else (AfterFailure(written, p).0, Ok(AfterFailure(written, p).1));
  }

  lemma RepairAnswers(w: Repo, p: Plan)
    requires CanMutate(p)
    ensures var (after, result) := AfterFailure(w, p);
            && result.status in {PartialWriteRepaired, RepairFailed} && ReadsRepository(result, after, p)
            && (result.mutationExecuted <==> after.applicationMutations > 0) && result.repairAttempted
            && (result.status == PartialWriteRepaired <==> Repair(w, p).1 && result.PostconditionPassed())
            && after == Repair(w, p).0
  {
    var (repaired, done) := Repair(w, p);
    SnapshotIsRead(repaired, p, if done then PartialWriteRepaired else RepairFailed, repaired.applicationMutations > 0, true);
  }

  /** Each flag is what the repository holds: the two keys, the three planned columns, the derived mark. */
  ghost predicate ReadsRepository(result: ExecutionResult, r: Repo, p: Plan) {
    && (result.outcomePresent <==> p.outcomeKey in r.outcomes)
    && (result.applicationAtTarget <==>
        && p.opportunityKey.Some? && p.opportunityKey.value in r.states
        && var s := r.states[p.opportunityKey.value];
           forall f | f in p.target ::
             (f == StatusField ==> s.status == p.target[f]) && (f == AppliedDate ==> s.appliedDate == p.target[f])
             && (f == LastUpdate ==> s.lastUpdate == p.target[f]))
    && (result.pipelinePresent <==> p.pipelineKey.Some? && p.pipelineKey.value in r.pipelines)
    && (result.derivedReconciled <==> p.opportunityKey.Some? && p.opportunityKey.value in r.derived)
  }

  lemma SnapshotIsRead(r: Repo, p: Plan, status: ExecutionStatus, executed: bool, repaired: bool)
    ensures var result := Snapshot(r, p, status, executed, repaired);
            && ReadsRepository(result, r, p)
            && result.status == status && result.mutationExecuted == executed && result.repairAttempted == repaired
  {
  }

  /**
   A report never tells what is not so. Only a writing answer changes the
   repository or claims a mutation or a repair; wherever the executor looked,
   every flag is what the repository now holds; where it did not look, it claims
   nothing, except that a plan suppressed by the planner has its outcome logged.
   */
  lemma ReportIsTrue(r: Repo, p: Plan, a: Authority)
    ensures var (after, result) := Execute(r, p, a);
            && (result.Err? ==> after == r)
            && (result.Ok? && result.value.status !in WRITING ==>
                  after == r && !result.value.mutationExecuted && !result.value.repairAttempted)
            && (result.Ok? && result.value.status in WRITING ==>
                  && ReadsRepository(result.value, after, p)
                  && (result.value.mutationExecuted <==> result.value.status == Committed || after.applicationMutations > 0)
                  && (result.value.repairAttempted <==> result.value.status != Committed)
                  && (result.value.status != RepairFailed ==>
                        && result.value.outcomePresent && result.value.applicationAtTarget
                        && result.value.pipelinePresent && result.value.derivedReconciled))
    ensures var result := Execute(r, p, a).1;
            result.Ok? ==>
              var v := result.value;
              match v.status
              case Suppressed =>
                if p.disposition == DuplicateSuppressed then
                  v.outcomePresent && !v.applicationAtTarget && !v.pipelinePresent && !v.derivedReconciled
                else ReadsRepository(v, r, p)
              case ConcurrentChange =>
                && (v.outcomePresent <==> p.outcomeKey in r.outcomes)
                && (v.pipelinePresent <==> p.pipelineKey.value in r.pipelines)
                && !v.applicationAtTarget && !v.derivedReconciled
              case KillSwitchOff =>
                && (v.outcomePresent <==> p.outcomeKey in r.outcomes)
                && !v.applicationAtTarget && !v.pipelinePresent && !v.derivedReconciled
              case Refused =>
                && (v.outcomePresent <==> p.outcomeKey in r.outcomes && !(p.disposition == Eligible && p.shouldMutate))
                && !v.applicationAtTarget && !v.pipelinePresent && !v.derivedReconciled
              case _ => true
  {
    AnswerIff(r, p, a);
    if Ready(p, a) && Current(r, p) && KeysFree(r, p) && a.Valid() && PatchValid(p) {
      WritingAnswers(r, p, a);
    }
  }

  /**
   From any repository, not only one that the writes have left: the repair
   completes exactly when nothing that is still missing runs into a failure, and
   a row that is not at its target is the one the plan was made on.
   */
  lemma RepairCompletesIff(r: Repo, p: Plan)
    requires CanMutate(p)
    ensures var atTarget := p.opportunityKey.value in r.states && AtTarget(r.states[p.opportunityKey.value], p.target);
            Repair(r, p).1 <==>
            && (p.outcomeKey in r.outcomes || AfterOutcome !in r.armed)
            && (atTarget || (Current(r, p) && AfterApplication !in r.armed))
            && (p.pipelineKey.value in r.pipelines || AfterPipeline !in r.armed)
            && (p.opportunityKey.value in r.derived || AfterDerived !in r.armed)
  {
  }

  /** A row that moved on is left alone by the repair, and so is all that would follow it. */
  lemma MovedOnIsLeftAlone(r: Repo, p: Plan)
    requires CanMutate(p) && !Current(r, p)
    requires p.opportunityKey.value in r.states ==> !AtTarget(r.states[p.opportunityKey.value], p.target)
    ensures var (after, ok) := Repair(r, p);
            && !ok && after.states == r.states && after.pipelines == r.pipelines && after.derived == r.derived
            && after.applicationMutations == r.applicationMutations
            && r.outcomes <= after.outcomes <= r.outcomes + {p.outcomeKey}
  {
  }

  // ----- Which of the three writing answers

  /** The failures that a planner-made plan will run into: a derived mark that is there is not set again. */
  function Live(r: Repo, p: Plan): set<Boundary>
    requires p.opportunityKey.Some?
  {
    if p.opportunityKey.value in r.derived then r.armed - {AfterDerived} else r.armed
  }

  lemma OneOrMore(live: set<Boundary>)
    ensures (exists b :: live == {b}) <==> live != {} && forall b, c | b in live && c in live :: b == c
  {
    if live != {} && forall b, c | b in live && c in live :: b == c {
      var b :| b in live;
      assert live == {b};
    }
  }

  lemma PassedAfter(r: Repo, p: Plan, n: nat, w: Repo, status: ExecutionStatus, executed: bool, repaired: bool)
    requires WellPlanned(p) && Fresh(r, p) && 1 <= n <= 4 && Persisted(w) == FirstWrites(r, p, n)
    ensures Snapshot(w, p, status, executed, repaired).PostconditionPassed() <==>
            n == 4 || (n == 3 && p.opportunityKey.value in r.derived)
  {
    SnapshotReads(r, p, n, w);
  }

  /** The writes go through unhindered exactly with no failure ahead, and are then complete. */
  lemma WritesIffNone(r: Repo, p: Plan, n: nat)
    requires WellPlanned(p) && Fresh(r, p)
    requires n == if AfterOutcome in r.armed then 1 else if AfterApplication in r.armed then 2
                  else if AfterPipeline in r.armed then 3 else 4
    ensures var (w, ok) := WriteSet(r, p);
            && (ok <==> Live(r, p) == {}) && Persisted(w) == FirstWrites(r, p, n)
            && (ok ==> Snapshot(w, p, Committed, true, false).PostconditionPassed())
            && (n < 4 ==> w.armed == r.armed - {if n == 1 then AfterOutcome else if n == 2 then AfterApplication
                                                else AfterPipeline})
  {
    WriteSetEffect(r, p);
    PassedAfter(r, p, n, WriteSet(r, p).0, Committed, true, false);
    NoneLeft(Live(r, p));
  }

  lemma StatusOf(r: Repo, p: Plan, a: Authority, w: Repo, ok: bool)
    requires a.Valid() && a.mutationFlag && Fresh(r, p) && PatchValid(p) && (w, ok) == WriteSet(r, p)
    requires ok ==> Snapshot(w, p, Committed, true, false).PostconditionPassed()
    ensures Execute(r, p, a).1.Ok?
    ensures Execute(r, p, a).1.value.status == if ok then Committed else AfterFailure(w, p).1.status
    ensures AfterFailure(w, p).1.status in {PartialWriteRepaired, RepairFailed}
  {
  }

  /** No failure ahead: committed. One: repaired, complete. Two or more: the repair fails too. */
  lemma StatusCountsFailures(r: Repo, p: Plan, a: Authority)
    requires WellPlanned(p) && Fresh(r, p) && a.Valid() && a.mutationFlag
    ensures var result := Execute(r, p, a).1;
            && result.Ok?
            && (result.value.status == Committed <==> Live(r, p) == {})
            && (result.value.status == PartialWriteRepaired <==> exists b :: Live(r, p) == {b})
            && (result.value.status == RepairFailed <==> exists b, c :: b in Live(r, p) && c in Live(r, p) && b != c)
  {
    var n := if AfterOutcome in r.armed then 1 else if AfterApplication in r.armed then 2
             else if AfterPipeline in r.armed then 3 else 4;
    var (w, ok) := WriteSet(r, p);
    WritesIffNone(r, p, n);
    StatusOf(r, p, a, w, ok);
    OneOrMore(Live(r, p));
    if !ok {
      RepairedIffOne(r, p, n, w);
    }
  }

  lemma NoneLeft(live: set<Boundary>)
    ensures live == {} <==>
            AfterOutcome !in live && AfterApplication !in live && AfterPipeline !in live && AfterDerived !in live
  {
    forall b | b in live
      ensures b in {AfterOutcome, AfterApplication, AfterPipeline, AfterDerived}
    {
      match b {
        case AfterOutcome =>
        case AfterApplication =>
        case AfterPipeline =>
        case AfterDerived =>
      }
    }
  }

  lemma OnlyOne(live: set<Boundary>, hit: Boundary)
    requires hit in live
    ensures (forall b, c | b in live && c in live :: b == c) <==>
            && (AfterOutcome in live ==> hit == AfterOutcome) && (AfterApplication in live ==> hit == AfterApplication)
            && (AfterPipeline in live ==> hit == AfterPipeline) && (AfterDerived in live ==> hit == AfterDerived)
  {
    NoneLeft(live - {hit});
    if live - {hit} == {} {
      assert forall b | b in live :: b == hit;
    }
  }

  lemma RepairedIffOne(r: Repo, p: Plan, n: nat, w: Repo)
    requires WellPlanned(p) && Fresh(r, p) && w == WriteSet(r, p).0 && Live(r, p) != {}
    requires n == if AfterOutcome in r.armed then 1 else if AfterApplication in r.armed then 2
                  else if AfterPipeline in r.armed then 3 else 4
    ensures AfterFailure(w, p).1.status == PartialWriteRepaired <==>
            forall b, c | b in Live(r, p) && c in Live(r, p) :: b == c
  {
    WritesIffNone(r, p, n);
    RepairOutcome(r, p, n, w);
    OneLeft(r.armed, p.opportunityKey.value in r.derived, n, w.armed);
  }

  lemma OneLeft(armed: set<Boundary>, derived: bool, n: nat, left: set<Boundary>)
    requires n == if AfterOutcome in armed then 1 else if AfterApplication in armed then 2
                  else if AfterPipeline in armed then 3 else 4
    requires n < 4 ==> left == armed - {if n == 1 then AfterOutcome else if n == 2 then AfterApplication
                                        else AfterPipeline}
    requires n == 4 ==> AfterDerived in armed && !derived
    ensures var live := if derived then armed - {AfterDerived} else armed;
            (forall b, c | b in live && c in live :: b == c) <==>
            && !(n == 1 && AfterApplication in left) && !(n <= 2 && AfterPipeline in left)
            && (n == 4 || AfterDerived !in left || derived)
  {
    OnlyOne(if derived then armed - {AfterDerived} else armed,
            if n == 1 then AfterOutcome else if n == 2 then AfterApplication
            else if n == 3 then AfterPipeline else AfterDerived);
  }

  lemma RepairOutcome(r: Repo, p: Plan, n: nat, w: Repo)
    requires WellPlanned(p) && Fresh(r, p) && 1 <= n <= 4 && Persisted(w) == FirstWrites(r, p, n)
    ensures AfterFailure(w, p).1.status == PartialWriteRepaired <==>
            && !(n == 1 && AfterApplication in w.armed) && !(n <= 2 && AfterPipeline in w.armed)
            && (n == 4 || AfterDerived !in w.armed || p.opportunityKey.value in r.derived)
  {
    RepairEffect(r, p, n, w);
    RepairAnswers(w, p);
    var m := if n == 1 && AfterApplication in w.armed then 2 else if n <= 2 && AfterPipeline in w.armed then 3 else 4;
    var (repaired, done) := Repair(w, p);
    PassedAfter(r, p, m, repaired, if done then PartialWriteRepaired else RepairFailed,
                repaired.applicationMutations > 0, true);
  }

  // ----- What a mutation writes

  /**
   From the signal to the stored row: a mutating step writes the new status and
   the date of the mail, and the application date for a receipt; it leaves every
   other column and every other opportunity alone, and logs the message.
   */
  lemma MutationIsTheSignal(r: Repo, step: Step)
    requires Writes(r, step)
    ensures var t := step.attempt; var after := Next(r, step);
            && t.observed.Some? && Subject(step) == OpportunityKey(t.observed.value) && Subject(step) in r.states
            && after.outcomes == r.outcomes + {"gmail:" + Strip(t.signal.messageId)}
            && (t.signal.event == Rejection || t.signal.event == ApplicationReceived)
            && after.states == r.states[Subject(step) := RowFor(t.signal, r.states[Subject(step)])]
  {
    StepEffect(r, step);
    var t := step.attempt;
    var p := PlanOf(t).value;
    PlannerIsGuarded(t.signal, t.observed, t.outcomeLogged, t.pipelineLogged, t.planner);
    PlannedTarget(t.signal, t.observed, t.outcomeLogged, t.pipelineLogged, t.planner);
    WrittenRow(t.signal, r.states[p.opportunityKey.value], p.target);
    PersistedRow(r, p, Next(r, step), SurvivingWrites(r.armed));
  }

  /** The row after the signal: status and date of the mail, the application date for a receipt, all else as it was. */
  function RowFor(signal: Signal, s: OpportunityState): OpportunityState {
    if signal.event == Rejection then
      OpportunityState(s.company, s.role, s.country, "Rejected", s.appliedDate, signal.emailDate, s.verification, s.urlStatus)
    else
      OpportunityState(s.company, s.role, s.country, "Applied", signal.emailDate, signal.emailDate, s.verification,
                       s.urlStatus)
  }

  lemma WrittenRow(signal: Signal, s: OpportunityState, target: map<Field, string>)
    requires target == if signal.event == Rejection then RejectionTarget(signal) else ReceiptTarget(signal)
    ensures Patched(s, target) == RowFor(signal, s)
  {
  }

  lemma PersistedRow(r: Repo, p: Plan, after: Repo, n: nat)
    requires Fresh(r, p) && 2 <= n <= 4 && Persisted(after) == FirstWrites(r, p, n)
    ensures after.outcomes == r.outcomes + {p.outcomeKey}
    ensures var key := p.opportunityKey.value; after.states == r.states[key := Patched(r.states[key], p.target)]
  {
    assert after.states == Persisted(after).states && after.outcomes == Persisted(after).outcomes;
  }

  lemma PlannedTarget(signal: Signal, s: Option<OpportunityState>, outcomeLogged: bool, pipelineLogged: bool, a: Authority)
    ensures var plan := PlanOutcome(signal, s, outcomeLogged, pipelineLogged, a);
            plan.Ok? && CanMutate(plan.value) ==>
              plan.value.target == if signal.event == Rejection then RejectionTarget(signal) else ReceiptTarget(signal)
  {
    if OutcomeKey(signal.messageId).Some? && s.Some? {
      var key := OutcomeKey(signal.messageId).value;
      ReceiptPlansTarget(signal, key, s.value, pipelineLogged, a);
      RejectionPlansTarget(signal, key, s.value, pipelineLogged, a);
    }
  }

  lemma ReceiptPlansTarget(signal: Signal, key: string, s: OpportunityState, logged: bool, a: Authority)
    ensures var plan := PlanReceipt(signal, key, s, logged, a);
            plan.Ok? && CanMutate(plan.value) ==> plan.value.target == ReceiptTarget(signal)
  {
    TransitionTarget(signal, key, s, "Applied", "ST-01", logged, a, ReceiptTarget(signal));
  }

  lemma RejectionPlansTarget(signal: Signal, key: string, s: OpportunityState, logged: bool, a: Authority)
    ensures var plan := PlanRejection(signal, key, s, logged, a);
            plan.Ok? && CanMutate(plan.value) ==> plan.value.target == RejectionTarget(signal)
  {
    TransitionTarget(signal, key, s, "Rejected", "ST-07", logged, a, RejectionTarget(signal));
  }

  lemma TransitionTarget(signal: Signal, key: string, s: OpportunityState, to: string, rule: string, logged: bool,
                         a: Authority, target: map<Field, string>)
    ensures var plan := PlanTransition(signal, key, s, to, rule, logged, a, target);
            plan.Ok? && CanMutate(plan.value) ==> plan.value.target == target
  {
  }
}
