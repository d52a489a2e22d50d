/**
 The receipt that a preparation must produce before an intent may be recorded,
 and the proof key that binds the intent to what was prepared.
 */
module DurableSubmission {
  import opened Wrappers
  import opened Indexing
  import opened PrepareExecutor
  import S = SubmitPolicy
  import F = FencedSession
  import Identity
  import L = SubmissionLedger

  /** The request under review, with the parts that SUBMIT-1 does not use; `liveTarget` says its URL has the live shape. */
  datatype Reviewed = Reviewed(request: S.Request, atsFamily: string, liveTarget: bool)

  predicate IsHex(s: string, n: nat) {
    |s| == n && forall i | 0 <= i < n :: L.IsHexDigit(s[i])
  }

  function KeyOfControl(): S.Control -> string {
    (c: S.Control) => c.key
  }

  function FieldKey(): FieldResult -> string {
    (r: FieldResult) => r.controlKey
  }

  function FileKey(): FileResult -> string {
    (r: FileResult) => r.controlKey
  }

  function RequiredControls(controls: seq<S.Control>): seq<S.Control> {
    if controls == [] then []
    else
      var n := |controls| - 1;
      RequiredControls(controls[..n]) + if controls[n].required then [controls[n]] else []
  }

  // ----- The receipt, check by check

  const FRESHNESS := 120 * 1_000_000

  predicate RequestAcceptable(v: Reviewed) {
    var r := v.request;
    && r.stage == S.R2SingleCanary && r.drift == S.Match && r.inspectionCurrent && r.trackerCurrent
    && 0 < |r.controls| <= 100 && r.submissionsToday == 0 && IsHex(r.formFingerprint, 24)
  }

  predicate ResultMatches(v: Reviewed, p: Prepared) {
    var r := v.request;
    && p.state == PreSubmitReady && p.errorFree
    && p.writes <= 100 && p.uploads <= 100 && p.requiredObserved <= 100 && p.resolvedRequired <= 100
    && p.formValid && p.submitObserved && p.reviewGate
    && p.executionId == r.executionId && p.opportunityKey == r.opportunityKey && p.requisitionId == r.requisitionId
    && p.requestedUrl == r.applyUrl == p.finalUrl && v.liveTarget
    && p.observedForm == r.formFingerprint == p.finalForm
    && Identity.Lower(p.atsFamily) == Identity.Lower(v.atsFamily) == "smartrecruiters"
  }

  predicate ValidationCarried(v: Reviewed, p: Prepared) {
    && p.validation.Some?
    && var w := p.validation.value;
       w.policyEligible && w.artifactReady && w.provenanceComplete && w.blockers == []
       && Identity.SubmitIdentity(v.request.opportunityKey, v.request.requisitionId, v.request.profileVersion)
          == Some(w.submitKey)
  }

  predicate FieldVerified(r: FieldResult) {
    && (IsSafeField(r.canonicalField) || IsDynamicField(r.canonicalField))
    && r.status != FieldMismatch
    && IsHex(r.valueHash, 24) && r.valueHash == r.readbackHash
    && (r.status == WrittenVerified <==> r.mutated)
  }

  predicate CvVerified(r: FileResult) {
    && (r.status == UploadedVerified <==> r.executed)
    && r.canonicalField == "document.cv" && r.artifactType == "cv" && r.status != FileMismatch
    && IsHex(r.contentHash, 64) && r.readback.sha256 == r.contentHash
    && 0 < r.expected.size <= 10 * 1024 * 1024 && r.readback.size == r.expected.size
    && r.expected.mimeType == r.readback.mimeType == "application/pdf"
    && r.expected.fileName == r.readback.fileName
  }

  /** Attempts against results. */
  predicate CountersBalance(p: Prepared) {
    && p.writes == Mutations(p.fieldResults)
    && |p.fileResults| == 1 && p.uploads == (if p.fileResults[0].executed then 1 else 0)
  }

  predicate Declared(controls: map<string, S.Control>, key: string, field: string) {
    key in controls && controls[key].field == field
  }

  /** The checks that use the three dictionaries, `len` against `len`. */
  predicate KeysBind(v: Reviewed, p: Prepared) {
    var controls := Indexed(KeyOfControl(), v.request.controls);
    var fields := Indexed(FieldKey(), p.fieldResults);
    var files := Indexed(FileKey(), p.fileResults);
    && |controls| == |v.request.controls|
    && (forall x | x in p.fieldResults :: Declared(controls, x.controlKey, x.canonicalField))
    && (forall x | x in p.fileResults :: Declared(controls, x.controlKey, x.canonicalField))
    && |fields| == |p.fieldResults| && |files| == |p.fileResults| && fields.Keys !! files.Keys
  }

  /** The final loop: every required control has its result in the right dictionary. */
  predicate RequiredAnswered(v: Reviewed, p: Prepared) {
    var fields := Indexed(FieldKey(), p.fieldResults);
    var files := Indexed(FileKey(), p.fileResults);
    var required := RequiredControls(v.request.controls);
    && 0 < |required| == p.requiredObserved == p.resolvedRequired
    && (exists c | c in required :: c.field == "document.cv")
    && forall c | c in required ::
         if c.field == "document.cv" then c.key in files && files[c.key].canonicalField == c.field
         else c.key in fields && fields[c.key].canonicalField == c.field
  }

  /** `_validate_receipt` up to its last line. */
  predicate ReceiptAccepted(v: Reviewed, p: Prepared, observedAt: int, now: int) {
    && 0 <= now - observedAt <= FRESHNESS
    && RequestAcceptable(v) && ResultMatches(v, p) && ValidationCarried(v, p)
    && |p.fieldResults| <= 100
    && CountersBalance(p) && KeysBind(v, p)
    && (forall x | x in p.fieldResults :: FieldVerified(x)) && CvVerified(p.fileResults[0])
    && RequiredAnswered(v, p)
  }

  // ----- What an accepted receipt says

  /** One readback, whichever list it came from. */
  datatype Outcome = Outcome(controlKey: string, field: string)

  function OutcomeAt(p: Prepared, i: nat): Outcome
    requires i < |p.fieldResults| + |p.fileResults|
  {
    var n := |p.fieldResults|;
    if i < n then Outcome(p.fieldResults[i].controlKey, p.fieldResults[i].canonicalField)
    else Outcome(p.fileResults[i - n].controlKey, p.fileResults[i - n].canonicalField)
  }

  function Outcomes(p: Prepared): seq<Outcome> {
    seq(|p.fieldResults| + |p.fileResults|, i requires 0 <= i < |p.fieldResults| + |p.fileResults| => OutcomeAt(p, i))
  }

  predicate VerifiedAt(p: Prepared, i: nat)
    requires i < |Outcomes(p)|
  {
    if i < |p.fieldResults| then FieldVerified(p.fieldResults[i]) else CvVerified(p.fileResults[i - |p.fieldResults|])
  }

  function OutcomeKey(): Outcome -> string {
    (o: Outcome) => o.controlKey
  }

  lemma ListsShareNoKey(v: Reviewed, p: Prepared, i: nat, j: nat)
    requires KeysBind(v, p) && i < |p.fieldResults| && j < |p.fileResults|
    ensures p.fieldResults[i].controlKey != p.fileResults[j].controlKey
  {
    SizeTestsDistinctness(FieldKey(), p.fieldResults);
    SizeTestsDistinctness(FileKey(), p.fileResults);
    DistinctAreKept(FieldKey(), p.fieldResults, i);
    DistinctAreKept(FileKey(), p.fileResults, j);
  }

  lemma OutcomesDiffer(v: Reviewed, p: Prepared, i: nat, j: nat)
    requires KeysBind(v, p) && i < j < |p.fieldResults| + |p.fileResults|
    ensures OutcomeAt(p, i).controlKey != OutcomeAt(p, j).controlKey
  {
    var n := |p.fieldResults|;
    if j < n {
      SizeTestsDistinctness(FieldKey(), p.fieldResults);
      assert FieldKey()(p.fieldResults[i]) != FieldKey()(p.fieldResults[j]);
    } else if i >= n {
      SizeTestsDistinctness(FileKey(), p.fileResults);
      assert FileKey()(p.fileResults[i - n]) != FileKey()(p.fileResults[j - n]);
    } else {
      ListsShareNoKey(v, p, i, j - n);
    }
  }

  /** Distinct inside each list, and no key in both. */
  lemma OutcomesAreDistinct(v: Reviewed, p: Prepared)
    requires KeysBind(v, p)
    ensures Distinct(OutcomeKey(), Outcomes(p)) && Distinct(KeyOfControl(), v.request.controls)
  {
    SizeTestsDistinctness(KeyOfControl(), v.request.controls);
    forall i, j | 0 <= i < j < |Outcomes(p)|
      ensures OutcomeKey()(Outcomes(p)[i]) != OutcomeKey()(Outcomes(p)[j])
    {
      OutcomesDiffer(v, p, i, j);
    }
  }

  lemma {:induction false} RequiredControlsAre(controls: seq<S.Control>, c: S.Control)
    ensures c in RequiredControls(controls) <==> c in controls && c.required
  {
    if controls != [] {
      RequiredControlsAre(controls[..|controls| - 1], c);
      assert controls == controls[..|controls| - 1] + [controls[|controls| - 1]];
    }
  }

  ghost predicate OnlyAnswer(p: Prepared, c: S.Control, i: nat) {
    && i < |Outcomes(p)| && Outcomes(p)[i] == Outcome(c.key, c.field)
    && forall j | 0 <= j < |Outcomes(p)| && j != i :: Outcomes(p)[j].controlKey != c.key
  }

  lemma RequiredHasResult(v: Reviewed, p: Prepared, c: S.Control) returns (i: nat)
    requires |p.fileResults| == 1 && RequiredAnswered(v, p)
    requires c in v.request.controls && c.required
    ensures i < |Outcomes(p)| && Outcomes(p)[i] == Outcome(c.key, c.field)
  {
    RequiredControlsAre(v.request.controls, c);
    var n := |p.fieldResults|;
    if c.field == "document.cv" {
      IndexedHasKeys(FileKey(), p.fileResults, c.key);
      i := n;
      assert Indexed(FileKey(), p.fileResults)[c.key] == p.fileResults[0];
    } else {
      IndexedHasKeys(FieldKey(), p.fieldResults, c.key);
      var r := Indexed(FieldKey(), p.fieldResults)[c.key];
      var k :| 0 <= k < n && p.fieldResults[k] == r;
      i := k;
    }
  }

  lemma DistinctIsOnly(p: Prepared, c: S.Control, i: nat)
    requires Distinct(OutcomeKey(), Outcomes(p))
    requires i < |Outcomes(p)| && Outcomes(p)[i] == Outcome(c.key, c.field)
    ensures OnlyAnswer(p, c, i)
  {
    forall j | 0 <= j < |Outcomes(p)| && j != i
      ensures Outcomes(p)[j].controlKey != c.key
    {
      var a, b := if i < j then i else j, if i < j then j else i;
      assert OutcomeKey()(Outcomes(p)[a]) != OutcomeKey()(Outcomes(p)[b]);
    }
  }

  lemma ReadbackIsVerified(p: Prepared, i: nat)
    requires i < |Outcomes(p)| && |p.fileResults| == 1
    requires (forall x | x in p.fieldResults :: FieldVerified(x)) && CvVerified(p.fileResults[0])
    ensures VerifiedAt(p, i)
  {
    if i < |p.fieldResults| {
      assert p.fieldResults[i] in p.fieldResults;
    }
  }

  /** In an accepted receipt every required control has exactly one readback, of its own field, and it is verified. */
  lemma RequiredControlsAnsweredOnce(v: Reviewed, p: Prepared, c: S.Control) returns (i: nat)
    requires |p.fileResults| == 1 && KeysBind(v, p) && RequiredAnswered(v, p)
    requires (forall x | x in p.fieldResults :: FieldVerified(x)) && CvVerified(p.fileResults[0])
    requires c in v.request.controls && c.required
    ensures OnlyAnswer(p, c, i) && VerifiedAt(p, i)
  {
    i := RequiredHasResult(v, p, c);
    OutcomesAreDistinct(v, p);
    DistinctIsOnly(p, c, i);
    ReadbackIsVerified(p, i);
  }

  ghost predicate OnlyRequiredCv(controls: seq<S.Control>, i: nat) {
    && i < |controls| && controls[i].required && controls[i].field == "document.cv"
    && forall j | 0 <= j < |controls| && controls[j].required && controls[j].field == "document.cv" :: j == i
  }

  lemma RequiredCvHasTheFile(v: Reviewed, p: Prepared, c: S.Control)
    requires |p.fileResults| == 1 && RequiredAnswered(v, p)
    requires c in v.request.controls && c.required && c.field == "document.cv"
    ensures c.key == p.fileResults[0].controlKey
  {
    RequiredControlsAre(v.request.controls, c);
    IndexedHasKeys(FileKey(), p.fileResults, c.key);
  }

  lemma SomeRequiredCv(v: Reviewed, p: Prepared) returns (i: nat)
    requires RequiredAnswered(v, p)
    ensures i < |v.request.controls| && v.request.controls[i].required && v.request.controls[i].field == "document.cv"
  {
    var c :| c in RequiredControls(v.request.controls) && c.field == "document.cv";
    RequiredControlsAre(v.request.controls, c);
    i :| 0 <= i < |v.request.controls| && v.request.controls[i] == c;
  }

  /** It declares exactly one required CV control, and the one attached file is for it. */
  lemma ExactlyOneRequiredCv(v: Reviewed, p: Prepared) returns (i: nat)
    requires |p.fileResults| == 1 && KeysBind(v, p) && RequiredAnswered(v, p)
    ensures OnlyRequiredCv(v.request.controls, i)
    ensures v.request.controls[i].key == p.fileResults[0].controlKey
  {
    var controls := v.request.controls;
    OutcomesAreDistinct(v, p);
    i := SomeRequiredCv(v, p);
    RequiredCvHasTheFile(v, p, controls[i]);
    forall j | 0 <= j < |controls| && controls[j].required && controls[j].field == "document.cv"
      ensures j == i
    {
      RequiredCvHasTheFile(v, p, controls[j]);
      assert KeyOfControl()(controls[j]) == KeyOfControl()(controls[i]);
    }
  }

  /** Every readback is for a declared control of the same field. */
  lemma ReadbacksAreDeclared(v: Reviewed, p: Prepared, o: Outcome) returns (c: S.Control)
    requires KeysBind(v, p) && o in Outcomes(p)
    ensures c in v.request.controls && c.key == o.controlKey && c.field == o.field
  {
    var i :| 0 <= i < |Outcomes(p)| && Outcomes(p)[i] == o;
    var n := |p.fieldResults|;
    if i < n {
      assert p.fieldResults[i] in p.fieldResults;
    } else {
      assert p.fileResults[i - n] in p.fileResults;
    }
    IndexedHasKeys(KeyOfControl(), v.request.controls, o.controlKey);
    c := Indexed(KeyOfControl(), v.request.controls)[o.controlKey];
  }

  function Written(results: seq<FieldResult>): nat {
    if results == [] then 0
    else Written(results[..|results| - 1]) + if results[|results| - 1].status == WrittenVerified then 1 else 0
  }

  /** With every status tied to its flag, the mutations are the verified writes. */
  lemma {:induction false} MutationsAreWrites(results: seq<FieldResult>)
    requires forall r | r in results :: r.status == WrittenVerified <==> r.mutated
    ensures Mutations(results) == Written(results)
  {
    if results != [] {
      var n := |results| - 1;
      assert results[n] in results;
      assert forall r | r in results[..n] :: r in results;
      MutationsAreWrites(results[..n]);
    }
  }

  /** The reported attempts are exactly the verified writes and the verified upload. */
  lemma AttemptsAreVerified(p: Prepared)
    requires CountersBalance(p)
    requires (forall x | x in p.fieldResults :: FieldVerified(x)) && CvVerified(p.fileResults[0])
    ensures p.writes == Written(p.fieldResults)
    ensures p.uploads == if p.fileResults[0].status == UploadedVerified then 1 else 0
  {
    MutationsAreWrites(p.fieldResults);
  }

  ghost predicate AnsweredOnce(p: Prepared, c: S.Control) {
    exists i: nat :: i < |Outcomes(p)| && OnlyAnswer(p, c, i) && VerifiedAt(p, i)
  }

  ghost predicate OneCvForTheFile(v: Reviewed, p: Prepared)
    requires |p.fileResults| == 1
  {
    exists i: nat :: OnlyRequiredCv(v.request.controls, i) && v.request.controls[i].key == p.fileResults[0].controlKey
  }

  predicate Declares(controls: seq<S.Control>, o: Outcome) {
    exists c | c in controls :: c.key == o.controlKey && c.field == o.field
  }

  /** What the checks on keys and results mean together, without dictionaries. */
  ghost predicate ReceiptMeans(v: Reviewed, p: Prepared) {
    && |p.fileResults| == 1
    && (forall c | c in v.request.controls && c.required :: AnsweredOnce(p, c))
    && OneCvForTheFile(v, p)
    && Distinct(OutcomeKey(), Outcomes(p))
    && (forall o | o in Outcomes(p) :: Declares(v.request.controls, o))
    && p.writes == Written(p.fieldResults)
    && p.uploads == if p.fileResults[0].status == UploadedVerified then 1 else 0
  }

  lemma {:induction false} ChecksMean(v: Reviewed, p: Prepared)
    requires CountersBalance(p) && KeysBind(v, p) && RequiredAnswered(v, p)
    requires (forall x | x in p.fieldResults :: FieldVerified(x)) && CvVerified(p.fileResults[0])
    ensures ReceiptMeans(v, p)
  {
    forall c | c in v.request.controls && c.required
      ensures AnsweredOnce(p, c)
    {
      var i := RequiredControlsAnsweredOnce(v, p, c);
    }
    var i := ExactlyOneRequiredCv(v, p);
    OutcomesAreDistinct(v, p);
    forall o | o in Outcomes(p)
      ensures Declares(v.request.controls, o)
    {
      var c := ReadbacksAreDeclared(v, p, o);
    }
    AttemptsAreVerified(p);
  }

  /**
   An accepted receipt: every required control has exactly one verified
   readback of its field over both lists, exactly one required CV control is
   declared and has the one file, all readback keys are distinct and declared,
   and the attempts are the verified writes and the verified upload.
   */
  lemma {:induction false} AcceptedReceiptMeans(v: Reviewed, p: Prepared, observedAt: int, now: int)
    ensures ReceiptAccepted(v, p, observedAt, now) ==> ReceiptMeans(v, p)
  {
    if ReceiptAccepted(v, p, observedAt, now) {
      ChecksMean(v, p);
    }
  }

  // ----- What the executor hands over

  /** An asset that `validate` and `verify_asset` let through, for a CV. */
  predicate ApprovedCv(a: Asset) {
    IsHex(a.sha256, 64) && a.mimeType == "application/pdf" && 0 < a.size <= 10 * 1024 * 1024
  }

  predicate LowerCase(s: string) {
    Identity.Lower(s) == s
  }

  predicate Unpadded(f: string) {
    Identity.Strip(f) == f
  }

  lemma {:induction false} HexIsLower(s: string, n: nat)
    requires IsHex(s, n)
    ensures Identity.Lower(s) == s
  {
    assert forall i | 0 <= i < n :: Identity.LowerChar(s[i]) == s[i];
  }

  lemma SafeNamesAreUnpadded(f: string)
    requires IsSafeField(f) || IsDynamicField(f)
    ensures Unpadded(f)
  {
    Identity.TrimmedIsStripped(f);
  }

  lemma FieldPasses(digest: string -> string, plan: FieldPlan, turn: FieldTurn, r: FieldResult)
    requires Writable(plan) && FieldTold(digest, plan, turn, r) && r.status != FieldMismatch
    requires forall value :: IsHex(digest(value), 24)
    ensures FieldVerified(r) <==> Unpadded(plan.canonicalField)
  {
    if IsSafeField(plan.canonicalField) || IsDynamicField(plan.canonicalField) {
      SafeNamesAreUnpadded(plan.canonicalField);
    }
  }

  /** An upload plan for the one file the receipt accepts. */
  predicate PlansCv(u: UploadPlan) {
    u.canonicalField == "document.cv" && u.artifactType == "cv" && ApprovedCv(u.asset)
  }

  /** A file result passes exactly when it is a CV, approved, and reported with its digest in lower case. */
  lemma CvPassesIff(plan: UploadPlan, turn: FileTurn, r: FileResult)
    requires FileTold(plan, turn, r) && r.status != FileMismatch
    ensures CvVerified(r) <==> PlansCv(plan) && LowerCase(turn.readback.sha256)
  {
    if IsHex(plan.asset.sha256, 64) {
      HexIsLower(plan.asset.sha256, 64);
    }
  }

  function PlanKey(): FieldPlan -> string {
    (p: FieldPlan) => p.controlKey
  }

  function UploadKey(): UploadPlan -> string {
    (p: UploadPlan) => p.controlKey
  }

  lemma {:induction false} DeclaredIff(controls: seq<S.Control>, key: string, field: string)
    requires Distinct(KeyOfControl(), controls)
    ensures Declared(Indexed(KeyOfControl(), controls), key, field) <==> Declares(controls, Outcome(key, field))
  {
    IndexedHasKeys(KeyOfControl(), controls, key);
    if c :| c in controls && c.key == key && c.field == field {
      var i :| 0 <= i < |controls| && controls[i] == c;
      DistinctAreKept(KeyOfControl(), controls, i);
    }
  }

  /** The checks on the three dictionaries, said of the lists they are built from. */
  ghost predicate ListsBind(v: Reviewed, p: Prepared) {
    var controls := v.request.controls;
    && Distinct(KeyOfControl(), controls)
    && (forall x | x in p.fieldResults :: Declares(controls, Outcome(x.controlKey, x.canonicalField)))
    && (forall x | x in p.fileResults :: Declares(controls, Outcome(x.controlKey, x.canonicalField)))
    && Distinct(FieldKey(), p.fieldResults) && Distinct(FileKey(), p.fileResults)
    && forall x, y | x in p.fieldResults && y in p.fileResults :: x.controlKey != y.controlKey
  }

  lemma {:induction false} NoSharedKeyIff(p: Prepared)
    ensures Indexed(FieldKey(), p.fieldResults).Keys !! Indexed(FileKey(), p.fileResults).Keys
            <==> forall x, y | x in p.fieldResults && y in p.fileResults :: x.controlKey != y.controlKey
  {
    var fields, files := Indexed(FieldKey(), p.fieldResults), Indexed(FileKey(), p.fileResults);
    forall x, y | x in p.fieldResults && y in p.fileResults && fields.Keys !! files.Keys
      ensures x.controlKey != y.controlKey
    {
      IndexedHasKeys(FieldKey(), p.fieldResults, x.controlKey);
      IndexedHasKeys(FileKey(), p.fileResults, y.controlKey);
    }
    forall k | k in fields && k in files
      ensures exists x, y | x in p.fieldResults && y in p.fileResults :: x.controlKey == y.controlKey
    {
      IndexedHasKeys(FieldKey(), p.fieldResults, k);
      IndexedHasKeys(FileKey(), p.fileResults, k);
      assert fields[k].controlKey == files[k].controlKey;
    }
  }

  lemma {:induction false} KeysBindIff(v: Reviewed, p: Prepared)
    ensures KeysBind(v, p) <==> ListsBind(v, p)
  {
    var controls := v.request.controls;
    SizeTestsDistinctness(KeyOfControl(), controls);
    SizeTestsDistinctness(FieldKey(), p.fieldResults);
    SizeTestsDistinctness(FileKey(), p.fileResults);
    NoSharedKeyIff(p);
    if Distinct(KeyOfControl(), controls) {
      forall x | x in p.fieldResults
        ensures Declared(Indexed(KeyOfControl(), controls), x.controlKey, x.canonicalField)
                <==> Declares(controls, Outcome(x.controlKey, x.canonicalField))
      {
        DeclaredIff(controls, x.controlKey, x.canonicalField);
      }
      forall x | x in p.fileResults
        ensures Declared(Indexed(KeyOfControl(), controls), x.controlKey, x.canonicalField)
                <==> Declares(controls, Outcome(x.controlKey, x.canonicalField))
      {
        DeclaredIff(controls, x.controlKey, x.canonicalField);
      }
    }
  }

  lemma {:induction false} FileKindIsUnpadded(t: string)
    requires Identity.Lower(t) == "file"
    ensures Identity.Lower(Identity.Strip(t)) == "file"
  {
    assert |t| == |Identity.Lower(t)| == 4;
    assert Identity.LowerChar(t[0]) == Identity.Lower(t)[0] == 'f' && Identity.LowerChar(t[3]) == Identity.Lower(t)[3] == 'e';
    Identity.TrimmedIsStripped(t);
  }

  /** What passed the preflight never plans a field and a file on one control. */
  lemma FieldIsNoFile(controls: seq<F.PageControl>, f: FieldPlan, u: UploadPlan, acceptAllows: (string, Asset) -> bool)
    requires Writable(f) && FieldFits(controls, f) && FileFits(controls, u, acceptAllows)
    ensures f.controlKey != u.controlKey
  {
    assert !IsSafeControlType("file");
    if f.controlKey == u.controlKey {
      var c := Named(controls, f.controlKey).value;
      assert c.kind == "file" && Identity.Lower(c.kind) == Identity.Lower(f.controlType);
      assert forall i | 0 <= i < 4 :: Identity.LowerChar("file"[i]) == "file"[i];
      assert Identity.Lower("file") == "file";
      FileKindIsUnpadded(f.controlType);
    }
  }

  /** Results in step with the plans they were made for. */
  ghost predicate Follows(request: PrepareRequest, p: Prepared) {
    && |p.fieldResults| == |request.fields| && |p.fileResults| == |request.uploads|
    && (forall i | 0 <= i < |request.fields| ::
          p.fieldResults[i].controlKey == request.fields[i].controlKey
          && p.fieldResults[i].canonicalField == request.fields[i].canonicalField)
    && (forall i | 0 <= i < |request.uploads| ::
          p.fileResults[i].controlKey == request.uploads[i].controlKey
          && p.fileResults[i].canonicalField == request.uploads[i].canonicalField)
  }

  /** What the reviewed request has to say of the plans. */
  ghost predicate PlansBind(v: Reviewed, request: PrepareRequest) {
    var controls := v.request.controls;
    && Distinct(KeyOfControl(), controls)
    && (forall f | f in request.fields :: Declares(controls, Outcome(f.controlKey, f.canonicalField)))
    && (forall u | u in request.uploads :: Declares(controls, Outcome(u.controlKey, u.canonicalField)))
    && Distinct(PlanKey(), request.fields) && Distinct(UploadKey(), request.uploads)
  }

  /** Distinct keys come from distinct plans, and from nothing else: the executor has no such check. */
  lemma ResultKeysAreDistinctIff(request: PrepareRequest, p: Prepared)
    requires Follows(request, p)
    ensures Distinct(FieldKey(), p.fieldResults) <==> Distinct(PlanKey(), request.fields)
    ensures Distinct(FileKey(), p.fileResults) <==> Distinct(UploadKey(), request.uploads)
  {
    assert forall i | 0 <= i < |request.fields| :: FieldKey()(p.fieldResults[i]) == PlanKey()(request.fields[i]);
    assert forall i | 0 <= i < |request.uploads| :: FileKey()(p.fileResults[i]) == UploadKey()(request.uploads[i]);
  }

  lemma ResultsDeclaredIff(controls: seq<S.Control>, request: PrepareRequest, p: Prepared)
    requires Follows(request, p)
    ensures (forall x | x in p.fieldResults :: Declares(controls, Outcome(x.controlKey, x.canonicalField)))
            <==> (forall f | f in request.fields :: Declares(controls, Outcome(f.controlKey, f.canonicalField)))
    ensures (forall x | x in p.fileResults :: Declares(controls, Outcome(x.controlKey, x.canonicalField)))
            <==> (forall u | u in request.uploads :: Declares(controls, Outcome(u.controlKey, u.canonicalField)))
  {
    assert forall i | 0 <= i < |request.fields| ::
        p.fieldResults[i] in p.fieldResults && request.fields[i] in request.fields;
    assert forall i | 0 <= i < |request.uploads| ::
        p.fileResults[i] in p.fileResults && request.uploads[i] in request.uploads;
  }

  lemma FieldAndFileResultsApart(controls: seq<F.PageControl>, request: PrepareRequest, p: Prepared,
                                 acceptAllows: (string, Asset) -> bool)
    requires Follows(request, p)
    requires forall f | f in request.fields :: Writable(f) && FieldFits(controls, f)
    requires forall u | u in request.uploads :: FileFits(controls, u, acceptAllows)
    ensures forall x, y | x in p.fieldResults && y in p.fileResults :: x.controlKey != y.controlKey
  {
    forall i, j | 0 <= i < |request.fields| && 0 <= j < |request.uploads|
      ensures request.fields[i].controlKey != request.uploads[j].controlKey
    {
      assert request.fields[i] in request.fields && request.uploads[j] in request.uploads;
      FieldIsNoFile(controls, request.fields[i], request.uploads[j], acceptAllows);
    }
  }

  lemma ReadyFollows(lib: Library, request: PrepareRequest, policy: S.Policy, script: Script, p: Prepared)
    requires ReadyTold(lib, request, policy, script, p) && Accounted(lib, request, script, p)
    ensures Follows(request, p)
    ensures forall x, y | x in p.fieldResults && y in p.fileResults :: x.controlKey != y.controlKey
  {
    assert forall i | 0 <= i < |request.fields| :: FieldTold(lib.digest, request.fields[i], script.fields(i), p.fieldResults[i]);
    assert forall i | 0 <= i < |request.uploads| :: FileTold(request.uploads[i], script.files(i), p.fileResults[i]);
    FieldAndFileResultsApart(script.opening.shown.controls, request, p, lib.acceptAllows);
  }

  /**
   The executor never checks that plans have distinct controls: a ready result
   has distinct field keys exactly when the field plans do, distinct file keys
   exactly when the uploads do, and never a key in both lists.
   */
  lemma ReadyKeysDistinctIff(lib: Library, request: PrepareRequest, policy: S.Policy, script: Script, p: Prepared)
    requires ReadyTold(lib, request, policy, script, p) && Accounted(lib, request, script, p)
    ensures Distinct(FieldKey(), p.fieldResults) <==> Distinct(PlanKey(), request.fields)
    ensures Distinct(FileKey(), p.fileResults) <==> Distinct(UploadKey(), request.uploads)
    ensures forall x, y | x in p.fieldResults && y in p.fileResults :: x.controlKey != y.controlKey
  {
    ReadyFollows(lib, request, policy, script, p);
    ResultKeysAreDistinctIff(request, p);
  }

  /** A ready result binds to the reviewed request exactly when the plans do. */
  lemma ReadyKeysBindIff(lib: Library, request: PrepareRequest, policy: S.Policy, script: Script, p: Prepared, v: Reviewed)
    requires ReadyTold(lib, request, policy, script, p) && Accounted(lib, request, script, p)
    ensures KeysBind(v, p) <==> PlansBind(v, request)
  {
    ReadyFollows(lib, request, policy, script, p);
    KeysBindIff(v, p);
    ResultKeysAreDistinctIff(request, p);
    ResultsDeclaredIff(v.request.controls, request, p);
  }

  /** The readbacks of complete, told results pass exactly on these terms of plan and script. */
  lemma ReadbacksPassIff(lib: Library, request: PrepareRequest, script: Script, p: Prepared)
    requires |p.fieldResults| == |request.fields| && AllVerified(p.fieldResults) && p.writes == Mutations(p.fieldResults)
    requires |p.fileResults| == |request.uploads| && AllAttached(p.fileResults) && p.uploads == Executions(p.fileResults)
    requires FieldsTold(lib.digest, request.fields, script.fields, p.fieldResults)
    requires FilesTold(request.uploads, script.files, p.fileResults)
    requires forall f | f in request.fields :: Writable(f)
    requires forall value :: IsHex(lib.digest(value), 24)
    ensures CountersBalance(p) <==> |request.uploads| == 1
    ensures (forall x | x in p.fieldResults :: FieldVerified(x))
            <==> (forall f | f in request.fields :: Unpadded(f.canonicalField))
    ensures |request.uploads| == 1 ==>
              (CvVerified(p.fileResults[0]) <==> PlansCv(request.uploads[0]) && LowerCase(script.files(0).readback.sha256))
  {
    if |request.uploads| == 1 {
      assert p.fileResults[..0] == [];
      assert Executions(p.fileResults) == if p.fileResults[0].executed then 1 else 0;
      assert p.fileResults[0] in p.fileResults;
      CvPassesIff(request.uploads[0], script.files(0), p.fileResults[0]);
    }
    FieldsPassIff(lib.digest, request.fields, script.fields, p.fieldResults);
  }

  lemma FieldsPassIff(digest: string -> string, plans: seq<FieldPlan>, page: nat -> FieldTurn, results: seq<FieldResult>)
    requires FieldsTold(digest, plans, page, results) && |results| == |plans| && AllVerified(results)
    requires forall f | f in plans :: Writable(f)
    requires forall value :: IsHex(digest(value), 24)
    ensures (forall x | x in results :: FieldVerified(x)) <==> (forall f | f in plans :: Unpadded(f.canonicalField))
  {
    forall i | 0 <= i < |results|
      ensures FieldVerified(results[i]) <==> Unpadded(plans[i].canonicalField)
      ensures results[i] in results && plans[i] in plans
    {
      assert results[i] in results && plans[i] in plans;
      FieldPasses(digest, plans[i], page(i), results[i]);
    }
  }

  /**
   When a ready result of the executor passes the receipt's checks on keys,
   counters and readbacks: exactly when the plans bind to the reviewed request
   with distinct keys, no planned field name is padded, there is one file, it is
   an approved CV, and its digest was reported in lower case. Nothing is asked of
   the results themselves.
   */
  lemma ReadyResultPassesIff(lib: Library, request: PrepareRequest, policy: S.Policy, script: Script, p: Prepared,
                             v: Reviewed)
    requires ReadyTold(lib, request, policy, script, p) && Accounted(lib, request, script, p)
    requires forall value :: IsHex(lib.digest(value), 24)
    ensures CountersBalance(p) && KeysBind(v, p) && (forall x | x in p.fieldResults :: FieldVerified(x))
            && CvVerified(p.fileResults[0])
            <==>
            && PlansBind(v, request) && (forall f | f in request.fields :: Unpadded(f.canonicalField))
            && |request.uploads| == 1 && PlansCv(request.uploads[0]) && LowerCase(script.files(0).readback.sha256)
  {
    ReadyKeysBindIff(lib, request, policy, script, p, v);
    ReadbacksPassIff(lib, request, script, p);
  }

  // ----- The receipt by its rules, without dictionaries

  /** `n` lower-case hexadecimal digits. */
  predicate HexDigits(s: string, n: nat) {
    |s| == n && forall c | c in s :: 48 <= c as int <= 57 || 97 <= c as int <= 102
  }

  lemma HexDigitsIff(s: string, n: nat)
    ensures IsHex(s, n) <==> HexDigits(s, n)
  {
    if IsHex(s, n) {
      forall c | c in s
        ensures 48 <= c as int <= 57 || 97 <= c as int <= 102
      {
        var i :| 0 <= i < n && s[i] == c;
        assert L.IsHexDigit(s[i]);
      }
    }
    if HexDigits(s, n) {
      forall i | 0 <= i < n
        ensures L.IsHexDigit(s[i])
      {
        assert s[i] in s;
      }
    }
  }

  /** Fresh, for the one canary of the day, on a live target, on an unchanged form, complete and ready. */
  predicate InOrder(v: Reviewed, p: Prepared, observedAt: int, now: int) {
    var r := v.request;
    && observedAt <= now <= observedAt + 120_000_000
    && r.stage == S.R2SingleCanary && r.drift == S.Match && r.inspectionCurrent && r.trackerCurrent
    && 1 <= |r.controls| <= 100 && r.submissionsToday == 0 && v.liveTarget
    && HexDigits(r.formFingerprint, 24) && p.observedForm == p.finalForm == r.formFingerprint
    && p.state == PreSubmitReady && p.errorFree && p.formValid && p.submitObserved && p.reviewGate
    && p.writes <= 100 && p.uploads <= 100 && p.requiredObserved <= 100 && p.resolvedRequired <= 100
    && |p.fieldResults| <= 100
    && (p.executionId, p.opportunityKey, p.requisitionId) == (r.executionId, r.opportunityKey, r.requisitionId)
    && p.requestedUrl == p.finalUrl == r.applyUrl
    && Identity.Lower(p.atsFamily) == "smartrecruiters" && Identity.Lower(v.atsFamily) == "smartrecruiters"
    && p.validation != None && p.validation.value.policyEligible && p.validation.value.blockers == []
    && p.validation.value.artifactReady && p.validation.value.provenanceComplete
    && Identity.SubmitIdentity(r.opportunityKey, r.requisitionId, r.profileVersion) == Some(p.validation.value.submitKey)
  }

  lemma InOrderIff(v: Reviewed, p: Prepared, observedAt: int, now: int)
    ensures InOrder(v, p, observedAt, now) <==>
            && 0 <= now - observedAt <= FRESHNESS && |p.fieldResults| <= 100
            && RequestAcceptable(v) && ResultMatches(v, p) && ValidationCarried(v, p)
  {
    HexDigitsIff(v.request.formFingerprint, 24);
  }

  /** A field was written or found as planned, in a field that may be written, and read back with the planned digest. */
  predicate FieldStands(r: FieldResult) {
    && r.canonicalField in {"candidate.first_name", "candidate.last_name", "candidate.email", "candidate.phone",
                            "candidate.linkedin_url", "employment.notice_period", "application.referral",
                            "application.motivation_text"}
    && HexDigits(r.valueHash, 24) && r.readbackHash == r.valueHash
    && ((r.status == WrittenVerified && r.mutated) || (r.status == AlreadyMatched && !r.mutated))
  }

  /** The CV was attached or found, of a size and type that are allowed, and read back as it was approved. */
  predicate CvStands(r: FileResult) {
    && r.canonicalField == "document.cv" && r.artifactType == "cv"
    && HexDigits(r.contentHash, 64) && 1 <= r.expected.size <= 10_485_760 && r.expected.mimeType == "application/pdf"
    && r.readback == Readback(r.expected.fileName, r.expected.size, r.expected.mimeType, r.contentHash)
    && ((r.status == UploadedVerified && r.executed) || (r.status == AlreadyAttached && !r.executed))
  }

  lemma FieldStandsIff(r: FieldResult)
    ensures FieldVerified(r) <==> FieldStands(r)
  {
    HexDigitsIff(r.valueHash, 24);
  }

  lemma CvStandsIff(r: FileResult)
    ensures CvVerified(r) <==> CvStands(r)
  {
    HexDigitsIff(r.contentHash, 64);
  }

  function RequiredNumber(controls: seq<S.Control>): nat {
    |set i | 0 <= i < |controls| && controls[i].required|
  }

  lemma {:induction false} RequiredControlsCount(controls: seq<S.Control>)
    ensures |RequiredControls(controls)| == RequiredNumber(controls)
  {
    if controls != [] {
      var n := |controls| - 1;
      RequiredControlsCount(controls[..n]);
      var before := set i | 0 <= i < n && controls[..n][i].required;
      assert (set i | 0 <= i < |controls| && controls[i].required) == before + if controls[n].required then {n} else {};
    }
  }

  /** Every required control has its answer in the right list, the CV is among them, and their number is reported. */
  ghost predicate Answered(v: Reviewed, p: Prepared) {
    var controls := v.request.controls;
    && RequiredNumber(controls) > 0
    && p.requiredObserved == p.resolvedRequired == RequiredNumber(controls)
    && (exists c :: c in controls && c.required && c.field == "document.cv")
    && forall c | c in controls && c.required ::
         if c.field == "document.cv" then
           exists x :: x in p.fileResults && x.controlKey == c.key && x.canonicalField == c.field
         else
           exists x :: x in p.fieldResults && x.controlKey == c.key && x.canonicalField == c.field
  }

  lemma {:induction false} FieldAnswerIff(p: Prepared, key: string, field: string)
    requires Distinct(FieldKey(), p.fieldResults)
    ensures var fields := Indexed(FieldKey(), p.fieldResults);
            key in fields && fields[key].canonicalField == field
            <==> exists x :: x in p.fieldResults && x.controlKey == key && x.canonicalField == field
  {
    IndexedHasKeys(FieldKey(), p.fieldResults, key);
    if x :| x in p.fieldResults && x.controlKey == key && x.canonicalField == field {
      var i :| 0 <= i < |p.fieldResults| && p.fieldResults[i] == x;
      DistinctAreKept(FieldKey(), p.fieldResults, i);
    }
  }

  lemma {:induction false} FileAnswerIff(p: Prepared, key: string, field: string)
    requires Distinct(FileKey(), p.fileResults)
    ensures var files := Indexed(FileKey(), p.fileResults);
            key in files && files[key].canonicalField == field
            <==> exists x :: x in p.fileResults && x.controlKey == key && x.canonicalField == field
  {
    IndexedHasKeys(FileKey(), p.fileResults, key);
    if x :| x in p.fileResults && x.controlKey == key && x.canonicalField == field {
      var i :| 0 <= i < |p.fileResults| && p.fileResults[i] == x;
      DistinctAreKept(FileKey(), p.fileResults, i);
    }
  }

  lemma {:induction false} AnsweredIff(v: Reviewed, p: Prepared)
    requires Distinct(FieldKey(), p.fieldResults) && Distinct(FileKey(), p.fileResults)
    ensures RequiredAnswered(v, p) <==> Answered(v, p)
  {
    var controls := v.request.controls;
    RequiredControlsCount(controls);
    forall c
      ensures c in RequiredControls(controls) <==> c in controls && c.required
    {
      RequiredControlsAre(controls, c);
    }
    forall c | c in controls && c.required
      ensures var files := Indexed(FileKey(), p.fileResults);
              c.key in files && files[c.key].canonicalField == c.field
              <==> exists x :: x in p.fileResults && x.controlKey == c.key && x.canonicalField == c.field
      ensures var fields := Indexed(FieldKey(), p.fieldResults);
              c.key in fields && fields[c.key].canonicalField == c.field
              <==> exists x :: x in p.fieldResults && x.controlKey == c.key && x.canonicalField == c.field
    {
      FileAnswerIff(p, c.key, c.field);
      FieldAnswerIff(p, c.key, c.field);
    }
  }

  function FlaggedWrites(results: seq<FieldResult>): nat {
    |set i | 0 <= i < |results| && results[i].mutated|
  }

  lemma {:induction false} MutationsAreFlagged(results: seq<FieldResult>)
    ensures Mutations(results) == FlaggedWrites(results)
  {
    if results != [] {
      var n := |results| - 1;
      MutationsAreFlagged(results[..n]);
      var before := set i | 0 <= i < n && results[..n][i].mutated;
      assert (set i | 0 <= i < |results| && results[i].mutated) == before + if results[n].mutated then {n} else {};
    }
  }

  /** Attempts reported as many as results tell of. */
  ghost predicate Balanced(p: Prepared) {
    && p.writes == FlaggedWrites(p.fieldResults)
    && |p.fileResults| == 1 && p.uploads == if p.fileResults[0].executed then 1 else 0
  }

  lemma ReadbacksStandIff(p: Prepared)
    ensures (forall x | x in p.fieldResults :: FieldVerified(x)) <==> (forall x | x in p.fieldResults :: FieldStands(x))
    ensures |p.fileResults| == 1 ==> (CvVerified(p.fileResults[0]) <==> CvStands(p.fileResults[0]))
  {
    forall x | x in p.fieldResults
      ensures FieldVerified(x) <==> FieldStands(x)
    {
      FieldStandsIff(x);
    }
    if |p.fileResults| == 1 {
      CvStandsIff(p.fileResults[0]);
    }
  }

  /** The whole receipt: accepted exactly when it is in order, binds, stands and answers. */
  lemma ReceiptAcceptedIff(v: Reviewed, p: Prepared, observedAt: int, now: int)
    ensures ReceiptAccepted(v, p, observedAt, now) <==>
            && InOrder(v, p, observedAt, now) && Balanced(p) && ListsBind(v, p)
            && (forall x | x in p.fieldResults :: FieldStands(x)) && CvStands(p.fileResults[0])
            && Answered(v, p)
  {
    InOrderIff(v, p, observedAt, now);
    MutationsAreFlagged(p.fieldResults);
    KeysBindIff(v, p);
    ReadbacksStandIff(p);
    if ListsBind(v, p) {
      AnsweredIff(v, p);
    }
  }
}
