/**
 Two independent judges of a confirmation: the durable ledger, and the rule by
 which an attempt may be reconciled to Applied.
 */
module AppliedReconciliation {
  import opened Wrappers
  import opened Indexing
  import Identity
  import L = SubmissionLedger

  datatype AttemptStatus = Requested | Validated | SubmitClicked | SubmittedUnconfirmed | Confirmed | Blocked | Failed
                         | DuplicateSuppressed

  datatype Attempt = Attempt(ids: L.Identity, status: AttemptStatus, evidenceRef: string)

  /** `applied_transition_allowed`; an empty execution or requisition id is not compared. */
  predicate TransitionAllowed(a: Attempt, evidence: Option<L.ConfirmationEvidence>) {
    && a.status in {SubmitClicked, SubmittedUnconfirmed, Confirmed}
    && evidence.Some?
    && var e := evidence.value;
       && e.submitKey == a.ids.submitKey && e.exactIdentityMatch && !Identity.IsBlank(e.evidence.ref)
       && (e.executionId != "" ==> e.executionId == a.ids.executionId)
       && (e.requisitionId != "" ==> e.requisitionId == a.ids.requisitionId)
  }

  /** `mark_attempt_confirmed`; None is its refusal. */
  function MarkConfirmed(a: Attempt, e: L.ConfirmationEvidence): Option<Attempt> {
    if TransitionAllowed(a, Some(e)) then Some(a.(status := Confirmed, evidenceRef := e.evidence.ref)) else None
  }

  /** A confirmation is refused exactly for one of these reasons; otherwise only status and reference change. */
  lemma MarkingIsRefusedIff(a: Attempt, e: L.ConfirmationEvidence)
    ensures MarkConfirmed(a, e) == None <==>
            || a.status.Requested? || a.status.Validated? || a.status.Blocked? || a.status.Failed?
            || a.status.DuplicateSuppressed?
            || e.submitKey != a.ids.submitKey || !e.exactIdentityMatch
            || (forall c | c in e.evidence.ref :: Identity.IsWhite(c))
            || (|e.executionId| > 0 && e.executionId != a.ids.executionId)
            || (|e.requisitionId| > 0 && e.requisitionId != a.ids.requisitionId)
    ensures MarkConfirmed(a, e).Some? ==> MarkConfirmed(a, e).value == Attempt(a.ids, Confirmed, e.evidence.ref)
    ensures !TransitionAllowed(a, None)
  {
    Identity.BlankIff(e.evidence.ref);
  }

  lemma EvidenceRefIsPresent(s: string)
    requires L.IsEvidenceRef(s)
    ensures !Identity.IsBlank(s)
  {
    assert s[0] == s[..16][0] == 'e';
    Identity.PresentIfFirstKept(s);
  }

  /**
   Whatever the ledger records as a confirmation of an attempt may also be
   reconciled: the two never disagree in that direction, and the reconciled
   attempt carries the evidence that the ledger stores.
   */
  lemma RecordedIsReconcilable(hash: string -> L.Digest, row: Option<L.Row>, a: Attempt, key: string,
                               proof: L.ConfirmationEvidence, now: L.Stamp, fault: L.Fault)
    requires Injective(hash) && L.SchemaOk(row)
    requires row.Some? && row.value.ids == a.ids.Hashed(hash) && a.status == SubmittedUnconfirmed
    requires L.ApplyConfirm(hash, row, key, proof, now, fault).1 == L.Flag(true)
    ensures MarkConfirmed(a, proof).Some?
    ensures var after := L.ApplyConfirm(hash, row, key, proof, now, fault).0;
            && after.Some? && after.value.confirmation.Some?
            && MarkConfirmed(a, proof).value.evidenceRef == after.value.confirmation.value.evidence.ref
  {
    L.ConfirmEffect(hash, row, key, proof, now, fault);
    EvidenceRefIsPresent(proof.evidence.ref);
    assert hash(proof.submitKey) == hash(a.ids.submitKey);
    assert hash(proof.executionId) == hash(a.ids.executionId);
    assert hash(proof.requisitionId) == hash(a.ids.requisitionId);
  }

  /**
   The converse for a started row: what may be reconciled is recorded exactly
   when the clock can be read, the ids are given and not left out, the reference
   is a digest, and the observation lies between the start and the clock.
   */
  lemma ReconcilableIsRecordedIff(hash: string -> L.Digest, row: Option<L.Row>, a: Attempt, e: L.ConfirmationEvidence,
                                  now: L.Stamp)
    requires Injective(hash) && L.SchemaOk(row)
    requires row.Some? && row.value.ids == a.ids.Hashed(hash) && row.value.status == L.SubmittedUnconfirmed
    requires a.status == SubmittedUnconfirmed && a.ids.AllOpaque() && MarkConfirmed(a, e).Some?
    ensures L.ApplyConfirm(hash, row, e.submitKey, e, now, L.NoFault).1 == L.Flag(true) <==>
            && now.Utc? && e.executionId == a.ids.executionId && e.requisitionId == a.ids.requisitionId
            && L.IsEvidenceRef(e.evidence.ref)
            && e.observedAt.Utc? && row.value.startedAt.value <= e.observedAt.at <= now.at
  {
    assert hash(e.executionId) == hash(a.ids.executionId) <==> e.executionId == a.ids.executionId;
    assert hash(e.requisitionId) == hash(a.ids.requisitionId) <==> e.requisitionId == a.ids.requisitionId;
  }

  /**
   On a row that is already confirmed, the same conditions and the identical
   evidence, observed at the identical time, are what the ledger affirms.
   */
  lemma ReconcilableIsReaffirmedIff(hash: string -> L.Digest, row: Option<L.Row>, a: Attempt, e: L.ConfirmationEvidence,
                                    now: L.Stamp)
    requires Injective(hash) && L.SchemaOk(row)
    requires row.Some? && row.value.ids == a.ids.Hashed(hash) && row.value.status == L.Confirmed
    requires a.ids.AllOpaque() && MarkConfirmed(a, e).Some?
    ensures L.ApplyConfirm(hash, row, e.submitKey, e, now, L.NoFault).1 == L.Flag(true) <==>
            && now.Utc? && e.executionId == a.ids.executionId && e.requisitionId == a.ids.requisitionId
            && e.evidence == row.value.confirmation.value.evidence
            && e.observedAt == L.Utc(row.value.confirmation.value.observedAt)
            && row.value.confirmation.value.observedAt <= now.at
  {
    assert hash(e.executionId) == hash(a.ids.executionId) <==> e.executionId == a.ids.executionId;
    assert hash(e.requisitionId) == hash(a.ids.requisitionId) <==> e.requisitionId == a.ids.requisitionId;
  }

  /**
   A witness of the failing side: evidence without an execution id may be
   reconciled for any submitted attempt, and the ledger never records it.
   */
  lemma ReconcilableMayBeUnrecorded(hash: string -> L.Digest, row: Option<L.Row>, a: Attempt, ref: string, now: L.Stamp,
                                    fault: L.Fault)
    requires a.status == SubmittedUnconfirmed && L.IsEvidenceRef(ref)
    ensures var e := L.ConfirmationEvidence(a.ids.submitKey, L.Evidence(L.EmployerEmail, ref), now, true, "",
                                            a.ids.requisitionId);
            && MarkConfirmed(a, e).Some?
            && L.ApplyConfirm(hash, row, a.ids.submitKey, e, now, fault).1 != L.Flag(true)
  {
    EvidenceRefIsPresent(ref);
  }
}
