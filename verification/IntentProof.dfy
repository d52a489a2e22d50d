/**
 The proof key freezes what was prepared into the recorded intent; the durable
 client records the intent under it, and later marks the start only for the
 same proof.
 */
module IntentProof {
  import opened Wrappers
  import opened Indexing
  import opened Sorting
  import opened DurableSubmission
  import E = PrepareExecutor
  import S = SubmitPolicy
  import L = SubmissionLedger
  import P = SubmissionProtocol

  function Rows<T>(row: T -> Row, s: seq<T>): seq<Row> {
    seq(|s|, i requires 0 <= i < |s| => row(s[i]))
  }

  function FieldRow(): E.FieldResult -> Row {
    (r: E.FieldResult) => [r.controlKey, r.canonicalField, r.valueHash]
  }

  function SourceRow(): S.Control -> Row {
    (c: S.Control) => [c.key, c.field, c.provenanceRef, c.policyRef, c.artifactRef]
  }

  datatype Cv = Cv(contentHash: string, artifactVersion: string, size: int, mimeType: string, nameHash: string)

  /** The canonical record; the two lists are sorted. */
  datatype Payload = Payload(validation: string, submit: string, target: string, form: string, fields: seq<Row>, cv: Cv,
                             sources: seq<Row>)

  /** What a proof is computed from: request, prepared result, and validation. */
  datatype Subject = Subject(request: S.Request, prepared: E.Prepared, validation: S.Validation)
  {
    predicate HasFile() {
      |prepared.fileResults| > 0
    }

    function FieldRows(): seq<Row> {
      Rows(FieldRow(), prepared.fieldResults)
    }

    function SourceRows(): seq<Row> {
      Rows(SourceRow(), request.controls)
    }
  }

  function CvOf(hash: string -> L.Digest, file: E.FileResult): Cv {
    Cv(file.contentHash, file.artifactVersion, file.expected.size, file.expected.mimeType, hash(file.expected.fileName))
  }

  function PayloadOf(hash: string -> L.Digest, s: Subject): Payload
    requires s.HasFile()
  {
    Payload(s.validation.validationKey, s.validation.submitKey, hash(s.prepared.finalUrl), s.prepared.finalForm,
            Sorted(RowLe(), s.FieldRows()), CvOf(hash, s.prepared.fileResults[0]), Sorted(RowLe(), s.SourceRows()))
  }

  /** `_proof_key`; `encode` is the canonical JSON text. */
  function ProofKey(hash: string -> L.Digest, encode: Payload -> string, s: Subject): string
    requires s.HasFile()
  {
    "intent-proof:" + hash(encode(PayloadOf(hash, s)))
  }

  // ----- What the proof depends on

  /** The same content is bound: everything equal but the order of the readbacks and of the controls. */
  ghost predicate SameContent(a: Subject, b: Subject)
    requires a.HasFile() && b.HasFile()
  {
    var x, y := a.prepared.fileResults[0], b.prepared.fileResults[0];
    && a.validation.validationKey == b.validation.validationKey && a.validation.submitKey == b.validation.submitKey
    && a.prepared.finalUrl == b.prepared.finalUrl && a.prepared.finalForm == b.prepared.finalForm
    && multiset(a.FieldRows()) == multiset(b.FieldRows())
    && multiset(a.SourceRows()) == multiset(b.SourceRows())
    && x.contentHash == y.contentHash && x.artifactVersion == y.artifactVersion
    && x.expected.size == y.expected.size && x.expected.mimeType == y.expected.mimeType
    && x.expected.fileName == y.expected.fileName
  }

  lemma SamePayloadIff(hash: string -> L.Digest, a: Subject, b: Subject)
    requires a.HasFile() && b.HasFile() && Injective(hash)
    ensures PayloadOf(hash, a) == PayloadOf(hash, b) <==> SameContent(a, b)
  {
    RowLeIsTotalOrder();
    SortedIsCanonical(RowLe(), a.FieldRows(), b.FieldRows());
    SortedIsCanonical(RowLe(), a.SourceRows(), b.SourceRows());
  }

  /** With a collision-free hash and encoding, two proofs are equal exactly when the same content is bound. */
  lemma ProofIsExact(hash: string -> L.Digest, encode: Payload -> string, a: Subject, b: Subject)
    requires a.HasFile() && b.HasFile() && Injective(hash) && Injective(encode)
    ensures ProofKey(hash, encode, a) == ProofKey(hash, encode, b) <==> SameContent(a, b)
  {
    SamePayloadIff(hash, a, b);
    var x, y := hash(encode(PayloadOf(hash, a))), hash(encode(PayloadOf(hash, b)));
    if "intent-proof:" + x == "intent-proof:" + y {
      assert ("intent-proof:" + x)[13..] == x && ("intent-proof:" + y)[13..] == y;
    }
  }

  lemma RowsSplit<T>(row: T -> Row, a: seq<T>, x: T, b: seq<T>)
    ensures multiset(Rows(row, a + [x] + b)) == multiset(Rows(row, a + b)) + multiset{row(x)}
  {
    assert Rows(row, a + [x] + b) == Rows(row, a) + [row(x)] + Rows(row, b);
    assert Rows(row, a + b) == Rows(row, a) + Rows(row, b);
  }

  lemma {:induction false} RowsArePermuted<T(!new)>(row: T -> Row, a: seq<T>, b: seq<T>)
    requires multiset(a) == multiset(b)
    ensures multiset(Rows(row, a)) == multiset(Rows(row, b))
    decreases |a|
  {
    if a == [] {
      assert |multiset(b)| == 0;
    } else {
      assert a == [] + [a[0]] + a[1..] && [] + a[1..] == a[1..];
      assert a[0] in multiset(b);
      var k :| 0 <= k < |b| && b[k] == a[0];
      assert b == b[..k] + [a[0]] + b[k + 1..];
      RemoveOne(b[..k], a[0], b[k + 1..], multiset(a[1..]));
      RowsArePermuted(row, a[1..], b[..k] + b[k + 1..]);
      RowsSplit(row, [], a[0], a[1..]);
      RowsSplit(row, b[..k], a[0], b[k + 1..]);
    }
  }

  /** Reordering the field readbacks and the controls does not change the proof; no assumption on the hash. */
  lemma ProofIgnoresOrder(hash: string -> L.Digest, encode: Payload -> string, s: Subject,
                          fields: seq<E.FieldResult>, controls: seq<S.Control>)
    requires s.HasFile()
    requires multiset(fields) == multiset(s.prepared.fieldResults) && multiset(controls) == multiset(s.request.controls)
    ensures var t := Subject(s.request.(controls := controls), s.prepared.(fieldResults := fields), s.validation);
            ProofKey(hash, encode, t) == ProofKey(hash, encode, s)
  {
    var t := Subject(s.request.(controls := controls), s.prepared.(fieldResults := fields), s.validation);
    RowsArePermuted(FieldRow(), fields, s.prepared.fieldResults);
    RowsArePermuted(SourceRow(), controls, s.request.controls);
    RowLeIsTotalOrder();
    SortedIsCanonical(RowLe(), t.FieldRows(), s.FieldRows());
    SortedIsCanonical(RowLe(), t.SourceRows(), s.SourceRows());
    assert PayloadOf(hash, t) == PayloadOf(hash, s);
  }

  /**
   In every execution of the shared protocol: when a dispatch intent is issued,
   the content its client prepared is the content the intent was reserved for.
   */
  lemma {:induction false} DispatchedContentIsReserved(hash: string -> L.Digest, encode: Payload -> string,
                                                       trace: seq<P.Action>, a: P.Action, ids: L.Identity,
                                                       reserved: Subject, prepared: Subject)
    requires Injective(hash) && Injective(encode) && reserved.HasFile() && prepared.HasFile()
    requires ids.validationKey == ProofKey(hash, encode, reserved)
    requires P.Carries(hash, P.Execute(hash, trace).row, ids)
    requires P.Next(hash, P.Execute(hash, trace), a).dispatches > P.Execute(hash, trace).dispatches
    requires a.RecordDispatch? && a.dispatcher in P.Execute(hash, trace).dispatchers ==>
               P.Execute(hash, trace).dispatchers[a.dispatcher].Bound? ==>
               P.Execute(hash, trace).dispatchers[a.dispatcher].proofKey == ProofKey(hash, encode, prepared)
    ensures SameContent(reserved, prepared)
  {
    P.DispatchIsBound(hash, trace, a);
    ProofIsExact(hash, encode, reserved, prepared);
  }

  // ----- The client's transactions as protocol steps

  /** The row that an execution of the shared protocol ends with. */
  function RowAfter(hash: string -> L.Digest, trace: seq<P.Action>): Option<L.Row> {
    P.Execute(hash, trace).row
  }

  function DispatchesAfter(hash: string -> L.Digest, trace: seq<P.Action>): nat {
    P.Execute(hash, trace).dispatches
  }

  /** Any transaction but the start may be another client's step. */
  lemma TransactionIsStep(hash: string -> L.Digest, trace: seq<P.Action>, op: L.Op, fault: L.Fault)
    returns (longer: seq<P.Action>)
    requires !op.MarkStarted?
    ensures trace <= longer && RowAfter(hash, longer) == L.Apply(hash, RowAfter(hash, trace), op, fault).0
    ensures DispatchesAfter(hash, longer) == DispatchesAfter(hash, trace)
  {
    longer := P.ExecuteAppends(hash, trace, P.OtherClient(op, fault));
  }

  predicate BoundTo(hash: string -> L.Digest, row: Option<L.Row>, submitKey: string, executionId: string, proof: string) {
    && row.Some? && row.value.status == L.Validated
    && row.value.ids.submitKey == hash(submitKey) && row.value.ids.executionId == hash(executionId)
    && row.value.ids.validationKey == hash(proof)
  }

  /** The binding check and the start are the two steps of a dispatching client. */
  lemma StartIsSteps(hash: string -> L.Digest, trace: seq<P.Action>, d: nat, submitKey: string, executionId: string,
                     proof: string, now: int, look: L.Fault, store: L.Fault)
    returns (longer: seq<P.Action>)
    requires d !in P.Execute(hash, trace).dispatchers
    ensures trace <= longer
    ensures var row := RowAfter(hash, trace);
            var seen := L.ApplySnapshot(row, look).1;
            var (after, reply) := L.ApplyMarkStarted(hash, row, submitKey, executionId, L.Utc(now), store);
            var bound := seen.Seen? && BoundTo(hash, seen.row, submitKey, executionId, proof);
            && RowAfter(hash, longer) == (if bound then after else row)
            && DispatchesAfter(hash, longer) == DispatchesAfter(hash, trace) + if bound && reply == L.Done then 1 else 0
  {
    var middle := P.ExecuteAppends(hash, trace, P.BindDispatch(d, submitKey, executionId, proof, look));
    longer := P.ExecuteAppends(hash, middle, P.RecordDispatch(d, L.Utc(now), store));
  }

  // ----- The client

  datatype Report = RuntimeOff | ValidationRefused | AlreadyConsumed | IntentRecorded | DispatchIntentRecorded
                  | ConfirmationRecorded | ConfirmationRejected | Refused | LedgerFailed(error: L.LedgerError)

  /** The nine identity references of the attempt, with the proof in place of the validation key. */
  function Identities(v: Reviewed, w: S.Validation, proof: string): L.Identity {
    L.Identity(w.submitKey, v.request.executionId, v.request.opportunityKey, v.request.requisitionId,
               v.request.profileVersion, v.request.policyVersion, proof, v.atsFamily, v.request.formFingerprint)
  }

  /** The validation that an accepted receipt carries, unless SUBMIT-1 refuses to give one. */
  function Carried(v: Reviewed, p: E.Prepared, policy: S.Policy, authority: S.SubmitAuthority, observedAt: int, now: int)
    : Option<S.Validation>
  {
    if !ReceiptAccepted(v, p, observedAt, now) then None
    else
      match S.Validate(v.request, policy, authority)
      case Ok(w) => Some(w)
      case Err(_) => None
  }

  /** What `reserve` reports on a validation, the ledger and the faults of its two transactions. */
  function ReserveReport(w: S.Validation, opaqueIds: bool, free: bool, look: L.Fault, store: L.Fault): Report {
    if !w.executionAllowed then if w.policyEligible then RuntimeOff else ValidationRefused
    else if look != L.NoFault then LedgerFailed(L.StorageFailed)
    else if !free then AlreadyConsumed
    else if !opaqueIds then LedgerFailed(L.IdentityInvalid)
    else if store != L.NoFault then LedgerFailed(L.StorageFailed)
    else IntentRecorded
  }

  /** The binding holds, and the start can be stored. */
  predicate StartsBound(hash: string -> L.Digest, row: Option<L.Row>, submitKey: string, executionId: string,
                        proof: string, now: int, look: L.Fault)
  {
    && look == L.NoFault && BoundTo(hash, row, submitKey, executionId, proof)
    && IsOpaque(submitKey, 1024) && IsOpaque(executionId, 1024) && row.value.reservedAt <= now
  }

  /** What `record_before_dispatch` reports on an executable receipt. */
  function StartReport(hash: string -> L.Digest, row: Option<L.Row>, submitKey: string, executionId: string,
                       proof: string, now: int, look: L.Fault, store: L.Fault): Report
  {
    if look != L.NoFault then LedgerFailed(L.StorageFailed)
    else if !BoundTo(hash, row, submitKey, executionId, proof) then Refused
    else if !IsOpaque(submitKey, 1024) || !IsOpaque(executionId, 1024) then LedgerFailed(L.IdentityInvalid)
    else if store == L.BeforeCommit then LedgerFailed(L.StorageFailed)
    else if now < row.value.reservedAt then LedgerFailed(L.StartRejected)
    else if store != L.NoFault then LedgerFailed(L.StorageFailed)
    else DispatchIntentRecorded
  }

  class DurableSingleSubmission {
    const ledger: L.SqliteSubmissionLedger
    const encode: Payload -> string

    constructor (ledger: L.SqliteSubmissionLedger, encode: Payload -> string)
      ensures this.ledger == ledger && this.encode == encode
    {
      this.ledger, this.encode := ledger, encode;
    }

    function ProofOf(v: Reviewed, p: E.Prepared, w: S.Validation): string
      requires |p.fileResults| > 0
      reads ledger
    {
      ProofKey(ledger.hash, encode, Subject(v.request, p, w))
    }

    /** `_validate`: the receipt, then SUBMIT-1 again. */
    method Review(v: Reviewed, p: E.Prepared, policy: S.Policy, authority: S.SubmitAuthority, observedAt: int, now: int)
      returns (w: Option<S.Validation>)
      ensures w == Carried(v, p, policy, authority, observedAt, now)
      ensures w.Some? ==> |p.fileResults| == 1
    {
      if !ReceiptAccepted(v, p, observedAt, now) {
        return None;
      }
      var r := S.ValidatePreSubmit(v.request, policy, authority);
      w := if r.Ok? then Some(r.value) else None;
    }

    /** What `reserve` does with a validation: the row that an intent leaves behind. */
    method StoreIntent(v: Reviewed, w: S.Validation, proof: string, now: int, look: L.Fault, store: L.Fault,
                       ghost trace: seq<P.Action>)
      returns (report: Report, ghost longer: seq<P.Action>)
      requires ledger.Valid() && RowAfter(ledger.hash, trace) == ledger.row
      modifies ledger
      ensures trace <= longer && RowAfter(ledger.hash, longer) == ledger.row
      ensures ledger.Valid() && L.Extends(old(ledger.row), ledger.row)
      ensures report == ReserveReport(w, Identities(v, w, proof).AllOpaque(), old(ledger.row) == None, look, store)
      ensures ledger.row != old(ledger.row) <==>
              && w.executionAllowed && old(ledger.row) == None && look == L.NoFault && store != L.BeforeCommit
              && Identities(v, w, proof).AllOpaque()
      ensures ledger.row != old(ledger.row) ==>
                ledger.row == Some(L.Row(Identities(v, w, proof).Hashed(ledger.hash), L.Validated, now, now, None, None))
    {
      longer := trace;
      if !w.executionAllowed {
        return if w.policyEligible then RuntimeOff else ValidationRefused, longer;
      }
      L.QuestionsAreAnswered(ledger.hash, ledger.row, "", look);
      var occupied := ledger.Occupied(look);
      longer := TransactionIsStep(ledger.hash, longer, L.HasIntent, look);
      if occupied.Failed? {
        return LedgerFailed(occupied.error), longer;
      }
      if occupied == L.Flag(true) {
        return AlreadyConsumed, longer;
      }
      var attempt := L.Attempt(Identities(v, w, proof), L.Utc(now), true);
      L.ReserveIff(ledger.hash, ledger.row, attempt, L.Utc(now), store);
      var reply := ledger.Reserve(attempt, L.Utc(now), store);
      longer := TransactionIsStep(ledger.hash, longer, L.ReserveIntent(attempt, L.Utc(now)), store);
      report := if reply == L.Flag(true) then IntentRecorded
                else if reply.Failed? then LedgerFailed(reply.error) else AlreadyConsumed;
    }

    /**
     An intent is recorded exactly on an executable receipt whose identities can
     be stored, an empty ledger and no fault, and then under its proof; every
     other report has its own exact condition.
     */
    method Reserve(v: Reviewed, p: E.Prepared, policy: S.Policy, authority: S.SubmitAuthority, observedAt: int, now: int,
                   look: L.Fault, store: L.Fault, ghost trace: seq<P.Action>)
      returns (report: Report, ghost longer: seq<P.Action>, ghost w: Option<S.Validation>)
      requires ledger.Valid() && RowAfter(ledger.hash, trace) == ledger.row
      modifies ledger
      ensures trace <= longer && RowAfter(ledger.hash, longer) == ledger.row
      ensures ledger.Valid() && L.Extends(old(ledger.row), ledger.row)
      ensures w == Carried(v, p, policy, authority, observedAt, now) && (w.Some? ==> |p.fileResults| == 1)
      ensures report == Refused <==> w == None
      ensures report == RuntimeOff <==> w.Some? && !w.value.executionAllowed && w.value.policyEligible
      ensures report == ValidationRefused <==> w.Some? && !w.value.executionAllowed && !w.value.policyEligible
      ensures var executable := w.Some? && w.value.executionAllowed;
              var free := old(ledger.row) == None;
              var storable := w.Some? && Identities(v, w.value, ProofOf(v, p, w.value)).AllOpaque();
              && (report == AlreadyConsumed <==> executable && look == L.NoFault && !free)
              && (report == IntentRecorded <==>
                  executable && look == L.NoFault && free && storable && store == L.NoFault)
              && (report == LedgerFailed(L.IdentityInvalid) <==> executable && look == L.NoFault && free && !storable)
              && (report == LedgerFailed(L.StorageFailed) <==>
                  executable && (look != L.NoFault || (free && storable && store != L.NoFault)))
              && (ledger.row != old(ledger.row) <==>
                  executable && look == L.NoFault && free && storable && store != L.BeforeCommit)
      ensures ledger.row != old(ledger.row) ==>
                var h, r := ledger.hash, v.request;
                var ids := L.Identity(h(w.value.submitKey), h(r.executionId), h(r.opportunityKey), h(r.requisitionId),
                                      h(r.profileVersion), h(r.policyVersion), h(ProofOf(v, p, w.value)), h(v.atsFamily),
                                      h(r.formFingerprint));
                ledger.row == Some(L.Row(ids, L.Validated, now, now, None, None))
    {
      var validation := Review(v, p, policy, authority, observedAt, now);
      w := validation;
      if validation.None? {
        return Refused, trace, w;
      }
      var proof := ProofOf(v, p, validation.value);
      report, longer := StoreIntent(v, validation.value, proof, now, look, store, trace);
    }

    /** What `record_before_dispatch` does with a proof: check the binding, then mark the start. */
    method StartBound(submitKey: string, executionId: string, proof: string, now: int, look: L.Fault, store: L.Fault,
                      ghost trace: seq<P.Action>, ghost d: nat)
      returns (report: Report, ghost longer: seq<P.Action>)
      requires ledger.Valid() && RowAfter(ledger.hash, trace) == ledger.row
      requires d !in P.Execute(ledger.hash, trace).dispatchers
      modifies ledger
      ensures trace <= longer && RowAfter(ledger.hash, longer) == ledger.row
      ensures DispatchesAfter(ledger.hash, longer)
              == DispatchesAfter(ledger.hash, trace) + if report.DispatchIntentRecorded? then 1 else 0
      ensures ledger.Valid() && L.Extends(old(ledger.row), ledger.row)
      ensures report == StartReport(ledger.hash, old(ledger.row), submitKey, executionId, proof, now, look, store)
      ensures ledger.row != old(ledger.row) <==>
              StartsBound(ledger.hash, old(ledger.row), submitKey, executionId, proof, now, look) && store != L.BeforeCommit
      ensures ledger.row != old(ledger.row) ==>
                ledger.row == Some(old(ledger.row).value.(status := L.SubmittedUnconfirmed, startedAt := Some(now)))
    {
      longer := StartIsSteps(ledger.hash, trace, d, submitKey, executionId, proof, now, look, store);
      L.QuestionsAreAnswered(ledger.hash, ledger.row, "", look);
      L.StartIff(ledger.hash, ledger.row, submitKey, executionId, L.Utc(now), store);
      var state := ledger.Read(look);
      if state.Failed? {
        return LedgerFailed(state.error), longer;
      }
      if !BoundTo(ledger.hash, state.row, submitKey, executionId, proof) {
        return Refused, longer;
      }
      var reply := ledger.Start(submitKey, executionId, L.Utc(now), store);
      report := if reply.Failed? then LedgerFailed(reply.error) else DispatchIntentRecorded;
    }

    /**
     The dispatch intent is issued exactly for an executable receipt on the row
     that was reserved under its proof, no later than now and without a fault,
     and the row is started by then; in the shared protocol, of which this call is
     two steps, it is the first and only one.
     */
    method RecordBeforeDispatch(v: Reviewed, p: E.Prepared, policy: S.Policy, authority: S.SubmitAuthority,
                                observedAt: int, now: int, look: L.Fault, store: L.Fault, ghost trace: seq<P.Action>,
                                ghost d: nat)
      returns (report: Report, ghost longer: seq<P.Action>, ghost w: Option<S.Validation>)
      requires ledger.Valid() && RowAfter(ledger.hash, trace) == ledger.row
      requires d !in P.Execute(ledger.hash, trace).dispatchers
      modifies ledger
      ensures trace <= longer && RowAfter(ledger.hash, longer) == ledger.row
      ensures report.DispatchIntentRecorded? ==>
                DispatchesAfter(ledger.hash, trace) == 0 && DispatchesAfter(ledger.hash, longer) == 1
      ensures ledger.Valid() && L.Extends(old(ledger.row), ledger.row)
      ensures w == Carried(v, p, policy, authority, observedAt, now) && (w.Some? ==> |p.fileResults| == 1)
      ensures var executable := w.Some? && w.value.executionAllowed;
              var bound := executable && BoundTo(ledger.hash, old(ledger.row), w.value.submitKey, v.request.executionId,
                                                 ProofOf(v, p, w.value));
              var storable := executable && IsOpaque(w.value.submitKey, 1024) && IsOpaque(v.request.executionId, 1024);
              var inTime := bound && old(ledger.row).value.reservedAt <= now;
              && (report == Refused <==> !executable || (look == L.NoFault && !bound))
              && (report == DispatchIntentRecorded <==>
                  bound && look == L.NoFault && storable && inTime && store == L.NoFault)
              && (report == LedgerFailed(L.IdentityInvalid) <==> bound && look == L.NoFault && !storable)
              && (report == LedgerFailed(L.StartRejected) <==>
                  bound && look == L.NoFault && storable && !inTime && store != L.BeforeCommit)
              && (ledger.row != old(ledger.row) <==>
                  bound && look == L.NoFault && storable && inTime && store != L.BeforeCommit)
      ensures ledger.row != old(ledger.row) ==>
                ledger.row == Some(old(ledger.row).value.(status := L.SubmittedUnconfirmed, startedAt := Some(now)))
    {
      var validation := Review(v, p, policy, authority, observedAt, now);
      w := validation;
      if validation.None? || !validation.value.executionAllowed {
        return Refused, trace, w;
      }
      var proof := ProofOf(v, p, validation.value);
      report, longer := StartBound(validation.value.submitKey, v.request.executionId, proof, now, look, store, trace, d);
      P.AtMostOneSubmission(ledger.hash, longer);
    }

    method Reconcile(submitKey: string, evidence: L.ConfirmationEvidence, now: int, store: L.Fault,
                     ghost trace: seq<P.Action>)
      returns (report: Report, ghost longer: seq<P.Action>)
      requires ledger.Valid() && RowAfter(ledger.hash, trace) == ledger.row
      modifies ledger
      ensures trace <= longer && RowAfter(ledger.hash, longer) == ledger.row
      ensures ledger.Valid() && L.Extends(old(ledger.row), ledger.row)
      ensures report.ConfirmationRecorded? ==>
                && ledger.row.Some? && ledger.row.value.status == L.Confirmed && ledger.row.value.confirmation.Some?
                && ledger.row.value.confirmation.value.evidence == evidence.evidence
      ensures (ledger.row, L.Flag(true)) == L.Apply(ledger.hash, old(ledger.row), L.Confirm(submitKey, evidence, L.Utc(now)), store)
              <==> report == ConfirmationRecorded
      ensures report == LedgerFailed(L.StorageFailed) ==> store != L.NoFault
      ensures report in {ConfirmationRecorded, ConfirmationRejected, LedgerFailed(L.StorageFailed)}
    {
      L.RecordIff(ledger.hash, ledger.row, submitKey, evidence, L.Utc(now), store);
      var reply := ledger.Record(submitKey, evidence, L.Utc(now), store);
      L.ConfirmEffect(ledger.hash, old(ledger.row), submitKey, evidence, L.Utc(now), store);
      longer := TransactionIsStep(ledger.hash, trace, L.Confirm(submitKey, evidence, L.Utc(now)), store);
      report := if reply == L.Flag(true) then ConfirmationRecorded
                else if reply.Failed? then LedgerFailed(reply.error) else ConfirmationRejected;
    }
  }
}
