/**
 The durable one-row ledger. `Apply` is what one serialised transaction does to
 the row, including a transaction that fails before its COMMIT and one that
 commits and then reports failure (the parent directory is synced after the
 COMMIT). Times are microseconds.
 */
module SubmissionLedger {
  import opened Wrappers

  type Digest = string

  datatype Status = Validated | SubmittedUnconfirmed | Confirmed

  datatype EvidenceType = ConfirmationPage | EmployerEmail | AtsAcknowledgement

  /** The nine identity columns, as plain references or as stored digests. */
  datatype Identity = Identity(submitKey: string, executionId: string, opportunityKey: string, requisitionId: string,
                               profileVersion: string, policyVersion: string, validationKey: string,
                               atsFamily: string, formFingerprint: string)
  {
    predicate AllOpaque() {
      && IsOpaque(submitKey, 1024) && IsOpaque(executionId, 1024) && IsOpaque(opportunityKey, 1024)
      && IsOpaque(requisitionId, 1024) && IsOpaque(profileVersion, 1024) && IsOpaque(policyVersion, 1024)
      && IsOpaque(validationKey, 1024) && IsOpaque(atsFamily, 1024) && IsOpaque(formFingerprint, 1024)
    }

    function Hashed(hash: string -> Digest): Identity {
      Identity(hash(submitKey), hash(executionId), hash(opportunityKey), hash(requisitionId), hash(profileVersion),
               hash(policyVersion), hash(validationKey), hash(atsFamily), hash(formFingerprint))
    }
  }

  datatype Evidence = Evidence(evidenceType: EvidenceType, ref: string)

  /** `confirmation` holds confirmed_at, confirmation_observed_at, evidence_type and evidence_ref. */
  datatype Confirmation = Confirmation(confirmedAt: int, observedAt: int, evidence: Evidence)

  datatype Row = Row(ids: Identity, status: Status, requestedAt: int, reservedAt: int, startedAt: Option<int>,
                     confirmation: Option<Confirmation>)

  predicate IsHexDigit(c: char) {
    IsDigit(c) || 'a' <= c <= 'f'
  }

  predicate IsEvidenceRef(s: string) {
    && |s| == 16 + 64
    && s[..16] == "evidence:sha256:"
    && forall i | 16 <= i < |s| :: IsHexDigit(s[i])
  }

  /** What `_check_schema` demands of the stored row before every transaction. */
  predicate SchemaOk(row: Option<Row>) {
    row.Some? ==>
      var r := row.value;
      && r.requestedAt <= r.reservedAt
      && match r.status
         case Validated => r.startedAt.None? && r.confirmation.None?
         case SubmittedUnconfirmed => r.startedAt.Some? && r.reservedAt <= r.startedAt.value && r.confirmation.None?
         case Confirmed =>
           && r.startedAt.Some? && r.reservedAt <= r.startedAt.value
           && r.confirmation.Some?
           && r.startedAt.value <= r.confirmation.value.observedAt <= r.confirmation.value.confirmedAt
           && IsEvidenceRef(r.confirmation.value.evidence.ref)
  }

  // ----- Operations

  datatype Stamp = Utc(at: int) | NotUtc

  datatype Attempt = Attempt(ids: Identity, requestedAt: Stamp, validated: bool)

  datatype ConfirmationEvidence = ConfirmationEvidence(submitKey: string, evidence: Evidence, observedAt: Stamp,
                                                       exactIdentityMatch: bool, executionId: string,
                                                       requisitionId: string)

  datatype Op =
    | ReserveIntent(attempt: Attempt, now: Stamp)
    | HasSubmitKey(key: string)
    | HasIntent
    | MarkStarted(submitKey: string, executionId: string, at: Stamp)
    | Confirm(submitKey: string, proof: ConfirmationEvidence, now: Stamp)
    | Snapshot

  datatype Fault = NoFault | BeforeCommit | AfterCommit

  datatype LedgerError = UtcTimeRequired | ValidatedAttemptRequired | IdentityInvalid | TimeOrderInvalid
                       | StateInvalid | StartRejected | StorageFailed

  datatype Reply = Flag(value: bool) | Done | Seen(row: Option<Row>) | Failed(error: LedgerError)

  /** A transaction that wants to store `target` and answer `reply`. */
  function Transact(row: Option<Row>, target: Option<Row>, reply: Reply, fault: Fault): (Option<Row>, Reply) {
    if fault.BeforeCommit? then (row, Failed(StorageFailed))
    else if !SchemaOk(row) then (row, Failed(StateInvalid))
    else if reply.Failed? then (row, reply)
    else if fault.AfterCommit? then (target, Failed(StorageFailed))
    else (target, reply)
  }

  function ApplyReserve(hash: string -> Digest, row: Option<Row>, attempt: Attempt, now: Stamp, fault: Fault)
    : (Option<Row>, Reply)
  {
    if now.NotUtc? then (row, Failed(UtcTimeRequired))
    else if !attempt.validated then (row, Failed(ValidatedAttemptRequired))
    else if !attempt.ids.AllOpaque() then (row, Failed(IdentityInvalid))
    else if attempt.requestedAt.NotUtc? then (row, Failed(UtcTimeRequired))
    else if attempt.requestedAt.at > now.at then (row, Failed(TimeOrderInvalid))
    else if row.Some? then Transact(row, row, Flag(false), fault)
    else
      var inserted := Row(attempt.ids.Hashed(hash), Validated, attempt.requestedAt.at, now.at, None, None);
      Transact(row, Some(inserted), Flag(true), fault)
  }

  function ApplyMarkStarted(hash: string -> Digest, row: Option<Row>, submitKey: string, executionId: string,
                            at: Stamp, fault: Fault): (Option<Row>, Reply)
  {
    if at.NotUtc? then (row, Failed(UtcTimeRequired))
    else if !IsOpaque(submitKey, 1024) || !IsOpaque(executionId, 1024) then (row, Failed(IdentityInvalid))
    else if row.None? || row.value.ids.submitKey != hash(submitKey) || row.value.ids.executionId != hash(executionId)
            || row.value.status != Validated || at.at < row.value.reservedAt then
      Transact(row, row, Failed(StartRejected), fault)
    else
      Transact(row, Some(row.value.(status := SubmittedUnconfirmed, startedAt := Some(at.at))), Done, fault)
  }

  /** The row that a confirmation is about: same keys, started, and not observed before the start. */
  predicate Confirmable(hash: string -> Digest, row: Option<Row>, proof: ConfirmationEvidence) {
    && row.Some?
    && row.value.ids.submitKey == hash(proof.submitKey)
    && row.value.ids.executionId == hash(proof.executionId)
    && row.value.ids.requisitionId == hash(proof.requisitionId)
    && row.value.status != Validated
    && row.value.startedAt.Some?
    && proof.observedAt.Utc?
    && row.value.startedAt.value <= proof.observedAt.at
  }

  function ApplyConfirm(hash: string -> Digest, row: Option<Row>, submitKey: string, proof: ConfirmationEvidence,
                        now: Stamp, fault: Fault): (Option<Row>, Reply)
  {
    if now.NotUtc? then (row, Failed(UtcTimeRequired))
    else if !proof.exactIdentityMatch || !IsEvidenceRef(proof.evidence.ref) then (row, Flag(false))
    else if !IsOpaque(submitKey, 1024) || !IsOpaque(proof.submitKey, 1024) || !IsOpaque(proof.executionId, 1024)
            || !IsOpaque(proof.requisitionId, 1024) || proof.observedAt.NotUtc? then (row, Flag(false))
    else if hash(submitKey) != hash(proof.submitKey) || proof.observedAt.at > now.at then (row, Flag(false))
    else if !Confirmable(hash, row, proof) then Transact(row, row, Flag(false), fault)
    else if row.value.status == Confirmed then
      var same := row.value.confirmation.Some?
                  && row.value.confirmation.value.evidence == proof.evidence
                  && row.value.confirmation.value.observedAt == proof.observedAt.at;
      Transact(row, row, Flag(same), fault)
    else
      var confirmation := Confirmation(now.at, proof.observedAt.at, proof.evidence);
      Transact(row, Some(row.value.(status := Confirmed, confirmation := Some(confirmation))), Flag(true), fault)
  }

  function ApplyHasIntent(row: Option<Row>, fault: Fault): (Option<Row>, Reply) {
    Transact(row, row, Flag(row.Some?), fault)
  }

  function ApplySnapshot(row: Option<Row>, fault: Fault): (Option<Row>, Reply) {
    Transact(row, row, Seen(row), fault)
  }

  function Apply(hash: string -> Digest, row: Option<Row>, op: Op, fault: Fault): (Option<Row>, Reply) {
    match op
    case ReserveIntent(attempt, now) => ApplyReserve(hash, row, attempt, now, fault)
    case HasSubmitKey(key) =>
      if !IsOpaque(key, 1024) then (row, Failed(IdentityInvalid))
      else Transact(row, row, Flag(row.Some? && row.value.ids.submitKey == hash(key)), fault)
    case HasIntent => ApplyHasIntent(row, fault)
    case MarkStarted(key, execution, at) => ApplyMarkStarted(hash, row, key, execution, at, fault)
    case Confirm(key, proof, now) => ApplyConfirm(hash, row, key, proof, now, fault)
    case Snapshot => ApplySnapshot(row, fault)
  }

  // ----- What one operation keeps

  function Rank(row: Option<Row>): nat {
    match row
    case None => 0
    case Some(r) => match r.status case Validated => 1 case SubmittedUnconfirmed => 2 case Confirmed => 3
  }

  /** `later` extends `earlier`: nothing recorded is lost or altered and the status has not gone back. */
  predicate Extends(earlier: Option<Row>, later: Option<Row>) {
    && Rank(earlier) <= Rank(later)
    && (Rank(earlier) == Rank(later) ==> earlier == later)
    && (earlier.Some? ==>
          && later.Some?
          && later.value.ids == earlier.value.ids
          && later.value.requestedAt == earlier.value.requestedAt
          && later.value.reservedAt == earlier.value.reservedAt
          && (earlier.value.startedAt.Some? ==> later.value.startedAt == earlier.value.startedAt)
          && (earlier.value.confirmation.Some? ==> later.value.confirmation == earlier.value.confirmation))
  }

  lemma ExtendsIsTransitive(a: Option<Row>, b: Option<Row>, c: Option<Row>)
    requires Extends(a, b) && Extends(b, c)
    ensures Extends(a, c)
  {
  }

  lemma ApplyKeepsSchema(hash: string -> Digest, row: Option<Row>, op: Op, fault: Fault)
    requires SchemaOk(row)
    ensures SchemaOk(Apply(hash, row, op, fault).0)
    ensures Apply(hash, row, op, fault).1 != Failed(StateInvalid)
    ensures Extends(row, Apply(hash, row, op, fault).0)
    ensures Rank(Apply(hash, row, op, fault).0) <= Rank(row) + 1
  {
  }

  /** A granted reservation stores exactly the caller's identities, in a slot that was empty. */
  lemma ReserveEffect(hash: string -> Digest, row: Option<Row>, attempt: Attempt, now: Stamp, fault: Fault)
    requires SchemaOk(row)
    ensures var (after, reply) := ApplyReserve(hash, row, attempt, now, fault);
            && SchemaOk(after) && Extends(row, after)
            && (reply == Flag(true) ==> row.None? && after.Some? && after.value.status == Validated
                                        && after.value.ids == attempt.ids.Hashed(hash) && attempt.ids.AllOpaque())
  {
  }

  /** A granted confirmation leaves the row Confirmed with exactly the evidence offered. */
  lemma ConfirmEffect(hash: string -> Digest, row: Option<Row>, key: string, proof: ConfirmationEvidence, now: Stamp,
                      fault: Fault)
    requires SchemaOk(row)
    ensures var (after, reply) := ApplyConfirm(hash, row, key, proof, now, fault);
            && SchemaOk(after) && Extends(row, after)
            && (reply == Flag(true) ==>
                  && after.Some? && after.value.status == Confirmed && after.value.confirmation.Some?
                  && after.value.confirmation.value.evidence == proof.evidence)
  {
  }

  // ----- What one operation answers and stores, exactly

  /** A reference is accepted when it is the prefix followed by 64 lower-case hexadecimal digits. */
  lemma EvidenceRefIff(s: string)
    ensures IsEvidenceRef(s) <==>
            exists digits: string :: s == "evidence:sha256:" + digits && |digits| == 64
                                     && forall c | c in digits :: 48 <= c as int <= 57 || 97 <= c as int <= 102
  {
    if IsEvidenceRef(s) {
      assert s == "evidence:sha256:" + s[16..];
      forall c | c in s[16..]
        ensures 48 <= c as int <= 57 || 97 <= c as int <= 102
      {
        var i :| 0 <= i < |s[16..]| && s[16..][i] == c;
        assert IsHexDigit(s[16 + i]);
      }
    }
    forall digits: string | s == "evidence:sha256:" + digits && |digits| == 64
                            && forall c | c in digits :: 48 <= c as int <= 57 || 97 <= c as int <= 102
      ensures IsEvidenceRef(s)
    {
      forall i | 16 <= i < |s|
        ensures IsHexDigit(s[i])
      {
        assert s[i] == digits[i - 16] && digits[i - 16] in digits;
      }
    }
  }

  /** All nine identities have to be opaque references. */
  lemma AllOpaqueIff(x: Identity)
    ensures x.AllOpaque() <==>
            forall s | s in [x.submitKey, x.executionId, x.opportunityKey, x.requisitionId, x.profileVersion,
                             x.policyVersion, x.validationKey, x.atsFamily, x.formFingerprint] :: IsOpaque(s, 1024)
  {
    var all := [x.submitKey, x.executionId, x.opportunityKey, x.requisitionId, x.profileVersion, x.policyVersion,
                x.validationKey, x.atsFamily, x.formFingerprint];
    assert all[0] in all && all[1] in all && all[2] in all && all[3] in all && all[4] in all && all[5] in all
           && all[6] in all && all[7] in all && all[8] in all;
  }

  /**
   A reservation is granted on an empty slot to a validated attempt with opaque
   ids, requested no later than now, and it stores exactly that attempt. A
   refusal says which of this was missing, in the order of the checks.
   */
  lemma ReserveIff(hash: string -> Digest, row: Option<Row>, attempt: Attempt, now: Stamp, fault: Fault)
    requires SchemaOk(row)
    ensures var (after, reply) := Apply(hash, row, ReserveIntent(attempt, now), fault);
            var wellFormed := && now.Utc? && attempt.validated && attempt.ids.AllOpaque() && attempt.requestedAt.Utc?
                              && attempt.requestedAt.at <= now.at;
            && (reply == Flag(true) <==> wellFormed && row == None && fault == NoFault)
            && (reply == Flag(false) <==> wellFormed && row != None && fault == NoFault)
            && (reply == Failed(StorageFailed) <==> wellFormed && fault != NoFault)
            && (reply == Failed(ValidatedAttemptRequired) <==> now.Utc? && !attempt.validated)
            && (reply == Failed(IdentityInvalid) <==> now.Utc? && attempt.validated && !attempt.ids.AllOpaque())
            && (reply == Failed(TimeOrderInvalid) <==>
                && now.Utc? && attempt.validated && attempt.ids.AllOpaque() && attempt.requestedAt.Utc?
                && now.at < attempt.requestedAt.at)
            && (after != row <==> wellFormed && row == None && fault != BeforeCommit)
            && (after != row ==>
                  var x := attempt.ids;
                  after == Some(Row(Identity(hash(x.submitKey), hash(x.executionId), hash(x.opportunityKey),
                                             hash(x.requisitionId), hash(x.profileVersion), hash(x.policyVersion),
                                             hash(x.validationKey), hash(x.atsFamily), hash(x.formFingerprint)),
                                    Validated, attempt.requestedAt.at, now.at, None, None)))
  {
  }

  /**
   A start is reported exactly on a reserved row of these two keys that is not
   started yet, at or after its reservation; the time of the start is what the
   row gains.
   */
  lemma StartIff(hash: string -> Digest, row: Option<Row>, submitKey: string, executionId: string, at: Stamp,
                 fault: Fault)
    requires SchemaOk(row)
    ensures var (after, reply) := Apply(hash, row, MarkStarted(submitKey, executionId, at), fault);
            var wellFormed := at.Utc? && IsOpaque(submitKey, 1024) && IsOpaque(executionId, 1024);
            var reserved := && row.Some? && row.value.status == Validated && row.value.ids.submitKey == hash(submitKey)
                            && row.value.ids.executionId == hash(executionId)
                            && at.Utc? && row.value.reservedAt <= at.at;
            && (reply == Done <==> wellFormed && reserved && fault == NoFault)
            && (reply == Failed(UtcTimeRequired) <==> at == NotUtc)
            && (reply == Failed(IdentityInvalid) <==>
                at.Utc? && !(IsOpaque(submitKey, 1024) && IsOpaque(executionId, 1024)))
            && (reply == Failed(StartRejected) <==> wellFormed && !reserved && fault != BeforeCommit)
            && (reply == Failed(StorageFailed) <==>
                wellFormed && (fault == BeforeCommit || (reserved && fault == AfterCommit)))
            && (after != row <==> wellFormed && reserved && fault != BeforeCommit)
            && (after != row ==> after == Some(Row(row.value.ids, SubmittedUnconfirmed, row.value.requestedAt,
                                                   row.value.reservedAt, Some(at.at), None)))
  {
  }

  /**
   A confirmation is recorded exactly on a started row of these three keys, for
   exact evidence under a digest, observed between the start and now; on a
   confirmed row only its own evidence and time are affirmed again.
   */
  lemma RecordIff(hash: string -> Digest, row: Option<Row>, key: string, proof: ConfirmationEvidence, now: Stamp,
                  fault: Fault)
    requires SchemaOk(row)
    ensures var (after, reply) := Apply(hash, row, Confirm(key, proof, now), fault);
            var wellFormed := && now.Utc? && proof.exactIdentityMatch && IsEvidenceRef(proof.evidence.ref)
                              && IsOpaque(key, 1024) && IsOpaque(proof.submitKey, 1024)
                              && IsOpaque(proof.executionId, 1024) && IsOpaque(proof.requisitionId, 1024)
                              && hash(key) == hash(proof.submitKey)
                              && proof.observedAt.Utc? && proof.observedAt.at <= now.at;
            var started := && row.Some? && row.value.status in {SubmittedUnconfirmed, Confirmed}
                           && row.value.ids.submitKey == hash(proof.submitKey)
                           && row.value.ids.executionId == hash(proof.executionId)
                           && row.value.ids.requisitionId == hash(proof.requisitionId)
                           && proof.observedAt.Utc? && row.value.startedAt.value <= proof.observedAt.at;
            var repeated := && started && row.value.status == Confirmed
                            && row.value.confirmation.value.evidence == proof.evidence
                            && row.value.confirmation.value.observedAt == proof.observedAt.at;
            var recordable := started && row.value.status == SubmittedUnconfirmed;
            && (reply == Flag(true) <==> wellFormed && (recordable || repeated) && fault == NoFault)
            && (reply == Flag(false) <==>
                now.Utc? && (!wellFormed || (!recordable && !repeated && fault == NoFault)))
            && (reply == Failed(UtcTimeRequired) <==> now == NotUtc)
            && (reply == Failed(StorageFailed) <==> wellFormed && fault != NoFault)
            && (after != row <==> wellFormed && recordable && fault != BeforeCommit)
            && (after != row ==>
                  after == Some(Row(row.value.ids, Confirmed, row.value.requestedAt, row.value.reservedAt,
                                    row.value.startedAt,
                                    Some(Confirmation(now.at, proof.observedAt.at, proof.evidence)))))
  {
  }

  /** The three questions change nothing, and are answered from the row unless the storage fails. */
  lemma QuestionsAreAnswered(hash: string -> Digest, row: Option<Row>, key: string, fault: Fault)
    requires SchemaOk(row)
    ensures Apply(hash, row, HasIntent, fault)
            == (row, if fault == NoFault then Flag(row != None) else Failed(StorageFailed))
    ensures Apply(hash, row, Snapshot, fault) == (row, if fault == NoFault then Seen(row) else Failed(StorageFailed))
    ensures Apply(hash, row, HasSubmitKey(key), fault).0 == row
    ensures Apply(hash, row, HasSubmitKey(key), fault).1 == Flag(true) <==>
            IsOpaque(key, 1024) && fault == NoFault && row.Some? && row.value.ids.submitKey == hash(key)
    ensures Apply(hash, row, HasSubmitKey(key), fault).1 == Flag(false) <==>
            IsOpaque(key, 1024) && fault == NoFault && !(row.Some? && row.value.ids.submitKey == hash(key))
  {
  }

  // ----- Runs of operations by any number of clients

  datatype Call = Call(op: Op, fault: Fault)

  function RowAfter(hash: string -> Digest, calls: seq<Call>): Option<Row> {
    if calls == [] then None
    else
      var last := calls[|calls| - 1];
      Apply(hash, RowAfter(hash, calls[..|calls| - 1]), last.op, last.fault).0
  }

  function ReplyTo(hash: string -> Digest, calls: seq<Call>, i: nat): Reply
    requires i < |calls|
  {
    Apply(hash, RowAfter(hash, calls[..i]), calls[i].op, calls[i].fault).1
  }

  /** Reopening never finds an invalid state, and no call in any run reports one. */
  lemma {:induction false} SchemaHoldsThroughout(hash: string -> Digest, calls: seq<Call>)
    ensures SchemaOk(RowAfter(hash, calls))
    ensures forall i | 0 <= i < |calls| :: ReplyTo(hash, calls, i) != Failed(StateInvalid)
  {
    if calls != [] {
      var n := |calls| - 1;
      SchemaHoldsThroughout(hash, calls[..n]);
      ApplyKeepsSchema(hash, RowAfter(hash, calls[..n]), calls[n].op, calls[n].fault);
      forall i | 0 <= i < n
        ensures ReplyTo(hash, calls, i) == ReplyTo(hash, calls[..n], i)
      {
        assert calls[..n][..i] == calls[..i];
      }
    }
  }

  /**
   And the schema demands no more than that: every row it accepts, for opaque
   ids, is what some sequence of operations leaves behind.
   */
  lemma SchemaIsReachable(hash: string -> Digest, ids: Identity, r: Row) returns (calls: seq<Call>)
    requires SchemaOk(Some(r)) && ids.AllOpaque() && r.ids == ids.Hashed(hash)
    ensures RowAfter(hash, calls) == Some(r)
  {
    var reserve := Call(ReserveIntent(Attempt(ids, Utc(r.requestedAt), true), Utc(r.reservedAt)), NoFault);
    calls := [reserve];
    assert calls[..0] == [];
    assert RowAfter(hash, calls) == Some(Row(r.ids, Validated, r.requestedAt, r.reservedAt, None, None));
    if r.status != Validated {
      var start := Call(MarkStarted(ids.submitKey, ids.executionId, Utc(r.startedAt.value)), NoFault);
      calls := [reserve, start];
      assert calls[..1] == [reserve];
      assert RowAfter(hash, calls) == Some(r.(status := SubmittedUnconfirmed, confirmation := None));
      if r.status == Confirmed {
        var c := r.confirmation.value;
        var proof := ConfirmationEvidence(ids.submitKey, c.evidence, Utc(c.observedAt), true, ids.executionId,
                                          ids.requisitionId);
        calls := [reserve, start, Call(Confirm(ids.submitKey, proof, Utc(c.confirmedAt)), NoFault)];
        assert calls[..2] == [reserve, start];
      }
    }
  }

  /** In a longer run, everything the shorter run had recorded is still there, unchanged. */
  lemma {:induction false} RecordIsAppendOnly(hash: string -> Digest, calls: seq<Call>, i: nat)
    requires i <= |calls|
    ensures Extends(RowAfter(hash, calls[..i]), RowAfter(hash, calls))
    decreases |calls|
  {
    if i == |calls| {
      assert calls[..i] == calls;
    } else {
      var n := |calls| - 1;
      RecordIsAppendOnly(hash, calls[..n], i);
      assert calls[..n][..i] == calls[..i];
      SchemaHoldsThroughout(hash, calls[..n]);
      ApplyKeepsSchema(hash, RowAfter(hash, calls[..n]), calls[n].op, calls[n].fault);
      ExtendsIsTransitive(RowAfter(hash, calls[..i]), RowAfter(hash, calls[..n]), RowAfter(hash, calls));
    }
  }

  ghost predicate ReportedStart(hash: string -> Digest, calls: seq<Call>, i: nat)
    requires i < |calls|
  {
    calls[i].op.MarkStarted? && ReplyTo(hash, calls, i) == Done
  }

  /** However many clients share the ledger, at most one of them is ever told that its start was recorded. */
  lemma StartReportedAtMostOnce(hash: string -> Digest, calls: seq<Call>, i: nat, j: nat)
    requires i < j < |calls| && ReportedStart(hash, calls, i)
    ensures !ReportedStart(hash, calls, j)
  {
    assert calls[..j][..i + 1] == calls[..i + 1] && calls[..i + 1][..i] == calls[..i];
    RecordIsAppendOnly(hash, calls[..j], i + 1);
  }

  /** Likewise at most one client ever has its intent reservation granted. */
  lemma IntentGrantedAtMostOnce(hash: string -> Digest, calls: seq<Call>, i: nat, j: nat)
    requires i < j < |calls|
    requires calls[i].op.ReserveIntent? && ReplyTo(hash, calls, i) == Flag(true)
    ensures !(calls[j].op.ReserveIntent? && ReplyTo(hash, calls, j) == Flag(true))
  {
    assert calls[..j][..i + 1] == calls[..i + 1] && calls[..i + 1][..i] == calls[..i];
    RecordIsAppendOnly(hash, calls[..j], i + 1);
  }

  /**
   On a confirmed row, a well-formed confirmation for the same keys changes
   nothing and is granted exactly when it repeats the recorded evidence.
   */
  lemma ReconfirmIsIdempotent(hash: string -> Digest, row: Option<Row>, key: string, proof: ConfirmationEvidence,
                              now: Stamp, fault: Fault)
    requires SchemaOk(row) && row.Some? && row.value.status == Confirmed
    ensures ApplyConfirm(hash, row, key, proof, now, fault).0 == row
    ensures ApplyConfirm(hash, row, key, proof, now, fault).1 == Flag(true) ==>
              && proof.evidence == row.value.confirmation.value.evidence
              && proof.observedAt == Utc(row.value.confirmation.value.observedAt)
    ensures now.Utc? && proof.exactIdentityMatch && IsOpaque(key, 1024) && key == proof.submitKey && fault.NoFault?
            && IsOpaque(proof.executionId, 1024) && IsOpaque(proof.requisitionId, 1024)
            && Confirmable(hash, row, proof) && proof.observedAt.at <= now.at ==>
              (ApplyConfirm(hash, row, key, proof, now, fault).1 == Flag(true) <==>
               && proof.evidence == row.value.confirmation.value.evidence
               && proof.observedAt.at == row.value.confirmation.value.observedAt)
  {
  }

  /** A reservation that committed but reported failure is found by the next caller: the slot is never offered twice. */
  lemma LostReportStillConsumesSlot(hash: string -> Digest, row: Option<Row>, attempt: Attempt, now: Stamp, other: Attempt,
                                    later: Stamp)
    requires SchemaOk(row) && row.None?
    requires now.Utc? && attempt.validated && attempt.ids.AllOpaque()
    requires attempt.requestedAt.Utc? && attempt.requestedAt.at <= now.at
    ensures var (stored, reply) := ApplyReserve(hash, row, attempt, now, AfterCommit);
            && reply == Failed(StorageFailed)
            && ApplyReserve(hash, stored, other, later, NoFault).1 != Flag(true)
            && Apply(hash, stored, HasIntent, NoFault).1 == Flag(true)
  {
  }

  /** The ledger object. Each method runs one transaction; `fault` is what the storage does to it. */
  class SqliteSubmissionLedger {
    const hash: string -> Digest
    var row: Option<Row>

    ghost predicate Valid()
      reads this
    {
      SchemaOk(row)
    }

    constructor (hash: string -> Digest)
      ensures Valid() && row == None && this.hash == hash
    {
      this.hash := hash;
      row := None;
    }

    method Reserve(attempt: Attempt, now: Stamp, fault: Fault) returns (reply: Reply)
      requires Valid()
      modifies this
      ensures Valid() && Extends(old(row), row)
      ensures (row, reply) == Apply(hash, old(row), ReserveIntent(attempt, now), fault)
    {
      if now.NotUtc? {
        return Failed(UtcTimeRequired);
      }
      if !attempt.validated {
        return Failed(ValidatedAttemptRequired);
      }
      if !attempt.ids.AllOpaque() {
        return Failed(IdentityInvalid);
      }
      if attempt.requestedAt.NotUtc? {
        return Failed(UtcTimeRequired);
      }
      if attempt.requestedAt.at > now.at {
        return Failed(TimeOrderInvalid);
      }
      if fault.BeforeCommit? {
        return Failed(StorageFailed);
      }
      reply := Flag(false);
      if row.None? {
        row := Some(Row(attempt.ids.Hashed(hash), Validated, attempt.requestedAt.at, now.at, None, None));
        reply := Flag(true);
      }
      if fault.AfterCommit? {
        reply := Failed(StorageFailed);
      }
    }

    method Start(submitKey: string, executionId: string, at: Stamp, fault: Fault) returns (reply: Reply)
      requires Valid()
      modifies this
      ensures Valid() && Extends(old(row), row)
      ensures (row, reply) == Apply(hash, old(row), MarkStarted(submitKey, executionId, at), fault)
    {
      if at.NotUtc? {
        return Failed(UtcTimeRequired);
      }
      if !IsOpaque(submitKey, 1024) || !IsOpaque(executionId, 1024) {
        return Failed(IdentityInvalid);
      }
      if fault.BeforeCommit? {
        return Failed(StorageFailed);
      }
      if row.None? || row.value.ids.submitKey != hash(submitKey) || row.value.ids.executionId != hash(executionId) {
        return Failed(StartRejected);
      }
      if row.value.status != Validated || at.at < row.value.reservedAt {
        return Failed(StartRejected);
      }
      row := Some(row.value.(status := SubmittedUnconfirmed, startedAt := Some(at.at)));
      reply := if fault.AfterCommit? then Failed(StorageFailed) else Done;
    }

    method Record(submitKey: string, proof: ConfirmationEvidence, now: Stamp, fault: Fault) returns (reply: Reply)
      requires Valid()
      modifies this
      ensures Valid() && Extends(old(row), row)
      ensures (row, reply) == Apply(hash, old(row), Confirm(submitKey, proof, now), fault)
    {
      if now.NotUtc? {
        return Failed(UtcTimeRequired);
      }
      if !proof.exactIdentityMatch || !IsEvidenceRef(proof.evidence.ref) {
        return Flag(false);
      }
      if !IsOpaque(submitKey, 1024) || !IsOpaque(proof.submitKey, 1024) || !IsOpaque(proof.executionId, 1024)
         || !IsOpaque(proof.requisitionId, 1024) || proof.observedAt.NotUtc? {
        return Flag(false);
      }
      if hash(submitKey) != hash(proof.submitKey) || proof.observedAt.at > now.at {
        return Flag(false);
      }
      if fault.BeforeCommit? {
        return Failed(StorageFailed);
      }
      if !Confirmable(hash, row, proof) {
        reply := Flag(false);
      } else if row.value.status == Confirmed {
        var recorded := row.value.confirmation.value;
        reply := Flag(recorded.evidence == proof.evidence && recorded.observedAt == proof.observedAt.at);
      } else {
        var confirmation := Confirmation(now.at, proof.observedAt.at, proof.evidence);
        row := Some(row.value.(status := Confirmed, confirmation := Some(confirmation)));
        reply := Flag(true);
      }
      if fault.AfterCommit? {
        reply := Failed(StorageFailed);
      }
    }

    /** `has_intent`: a transaction that only reads. */
    method Occupied(fault: Fault) returns (reply: Reply)
      requires Valid()
      ensures (row, reply) == Apply(hash, row, HasIntent, fault)
    {
      reply := if fault.NoFault? then Flag(row.Some?) else Failed(StorageFailed);
    }

    /** `snapshot`: the row as the other clients see it. */
    method Read(fault: Fault) returns (reply: Reply)
      requires Valid()
      ensures (row, reply) == Apply(hash, row, Snapshot, fault)
    {
      reply := if fault.NoFault? then Seen(row) else Failed(StorageFailed);
    }
  }
}
