/**
 Ready results of the executor that the receipt refuses: one page, any plans for
 its text control, and what becomes of two plans for one control, of a padded
 field name, and of a digest reported in upper case.

 And one that it accepts: a live request with a single required CV, already
 attached, whose validation may be executed.
 */
module ReceiptWitnesses {
  import opened Wrappers
  import opened FencedSession
  import opened PrepareExecutor
  import D = DurableSubmission
  import Identity
  import Indexing
  import S = SubmitPolicy

  const TEXT_CONTROL := PageControl("a", "input", "text", "a", "", false, true, false, [], -1, "", "")
  const FILE_CONTROL := PageControl("b", "input", "file", "b", "", false, true, false, [], -1, "", "")

  /** Twenty-four and sixty-four times the same hexadecimal digit. */
  function Repeated(c: char, n: nat): string {
    seq(n, i => c)
  }

  const ASSET := Asset("cv.pdf", "application/pdf", 1, Repeated('a', 64))

  const UPLOAD := UploadPlan("u", "b", "document.cv", "cv", "v1", ASSET)

  const RESOLUTION := S.Control("a", "A", false, "candidate.email", S.HighConfidence, S.VerifiedFact, "s", "", "", false,
                                true, true)

  function TextPlan(planKey: string, canonicalField: string): FieldPlan {
    FieldPlan(planKey, "a", canonicalField, "text", "x", AutoSafe, true, true, false)
  }

  function WitnessLibrary(): Library {
    Library(controls => "f", (accept, asset) => true, text => Repeated('a', 24))
  }

  function WitnessRequest(plans: seq<FieldPlan>): PrepareRequest {
    PrepareRequest(true, true, "e", "o", "r", "p", "u", "f", plans, [UPLOAD], [RESOLUTION], true, {}, S.R1Prefill, 0,
                   S.POLICY_VERSION)
  }

  function Shown(): Look {
    Look(0, true, true, false, [], Snapshot([TEXT_CONTROL, FILE_CONTROL], false, false, [], ["submit"]))
  }

  const QUIET := Call([], false)

  /** The page already holds every planned value and the file, and reports `digest` for it. */
  function WitnessScript(plans: seq<FieldPlan>, digest: string): Script {
    var visit := Visit(Shown(), Shown());
    var file := Readback("cv.pdf", 1, "application/pdf", digest);
    Script("u", false, Shown(), visit,
           (i: nat) => FieldTurn(visit, QUIET, if i < |plans| then plans[i].value else "", visit, QUIET, visit, QUIET, "", true),
           (i: nat) => FileTurn(visit, QUIET, file, visit, true, visit, QUIET, visit, QUIET, file, true, Some(true)),
           visit, Shown(), QUIET, true, visit)
  }

  function FieldResultsOf(plans: seq<FieldPlan>): seq<FieldResult> {
    seq(|plans|, i requires 0 <= i < |plans| =>
      FieldResult(plans[i].planKey, plans[i].controlKey, plans[i].canonicalField, Repeated('a', 24), Repeated('a', 24),
                  AlreadyMatched, false))
  }

  function FileResultOf(digest: string): FileResult {
    Attached(UPLOAD, Readback("cv.pdf", 1, "application/pdf", digest), AlreadyAttached, false, true)
  }

  function ReviewOf(plans: seq<FieldPlan>): S.Request {
    ReviewRequest(WitnessRequest(plans), "u", "f", "")
  }

  function WitnessResult(plans: seq<FieldPlan>, digest: string): Prepared
    requires S.Validate(ReviewOf(plans), S.APPROVED, DEFAULT_AUTHORITY).Ok?
  {
    Proposal(WitnessRequest(plans), "u", "f", WitnessReview(plans), FieldResultsOf(plans), [FileResultOf(digest)], 0, 0)
  }

  lemma ResolutionIsClear()
    ensures S.FieldProblem(RESOLUTION, S.APPROVED).None?
  {
    var f := RESOLUTION.field;
    assert f[0] == 'c' && f[1] == 'a';
    assert "technical.captcha"[0] == 't' && "demographic."[0] == 'd' && "application.motivation_text"[0] == 'a';
    assert "document.cover_letter"[0] == 'd' && "document.cv"[0] == 'd' && "work.authorization"[0] == 'w';
    assert "work.requires_sponsorship"[0] == 'w' && "compensation.salary_expectation"[1] == 'o';
    assert "consent.privacy_acknowledgement"[1] == 'o' && "consent.marketing_opt_in"[1] == 'o';
  }

  lemma OneLetterIsPresent(s: string)
    requires |s| == 1 && !Identity.IsSpace(s[0])
    ensures !Identity.IsBlank(s)
  {
    Identity.PresentIfFirstKept(s);
  }

  lemma ReviewIsEligible(plans: seq<FieldPlan>)
    ensures var v := S.Validate(ReviewOf(plans), S.APPROVED, DEFAULT_AUTHORITY); v.Ok? && v.value.policyEligible
  {
    var r := ReviewOf(plans);
    OneLetterIsPresent("e");
    OneLetterIsPresent("o");
    OneLetterIsPresent("r");
    OneLetterIsPresent("p");
    OneLetterIsPresent("u");
    OneLetterIsPresent("f");
    Identity.PresentIfFirstKept(S.POLICY_VERSION);
    ResolutionIsClear();
    S.EligibleIff(r, S.APPROVED);
  }

  /** Plans for the text control, all with its value. */
  ghost predicate ForTheControl(plans: seq<FieldPlan>) {
    forall p | p in plans :: Writable(p) && p == TextPlan(p.planKey, p.canonicalField)
  }

  lemma ControlsFit(plans: seq<FieldPlan>)
    requires ForTheControl(plans)
    ensures Preflighted(WitnessLibrary(), WitnessRequest(plans), Shown().shown)
  {
    var controls := [TEXT_CONTROL, FILE_CONTROL];
    assert controls[..1] == [TEXT_CONTROL] && [TEXT_CONTROL][..0] == [];
    assert Named(controls, "b") == Some(FILE_CONTROL);
    assert "a"[0] == 'a' && "b"[0] == 'b';
    assert Named(controls, "a") == Named([TEXT_CONTROL], "a") == Some(TEXT_CONTROL);
    forall p | p in plans
      ensures FieldFits(controls, p)
    {
      assert p == TextPlan(p.planKey, p.canonicalField);
      assert "text"[0] == 't' && "select"[0] == 's';
    }
  }

  lemma OneFieldIsTold(plans: seq<FieldPlan>, digest: string, i: nat)
    requires ForTheControl(plans) && i < |plans|
    ensures FieldTold(WitnessLibrary().digest, plans[i], WitnessScript(plans, digest).fields(i), FieldResultsOf(plans)[i])
  {
    assert plans[i] == TextPlan(plans[i].planKey, plans[i].canonicalField);
  }

  lemma FieldsAreTold(plans: seq<FieldPlan>, digest: string)
    requires ForTheControl(plans)
    ensures FieldsTold(WitnessLibrary().digest, plans, WitnessScript(plans, digest).fields, FieldResultsOf(plans))
  {
    forall i | 0 <= i < |plans|
      ensures FieldTold(WitnessLibrary().digest, plans[i], WitnessScript(plans, digest).fields(i), FieldResultsOf(plans)[i])
    {
      OneFieldIsTold(plans, digest, i);
    }
  }

  lemma FieldsAreVerified(plans: seq<FieldPlan>)
    ensures AllVerified(FieldResultsOf(plans)) && Mutations(FieldResultsOf(plans)) == 0
  {
    NothingMutated(FieldResultsOf(plans));
  }

  lemma {:induction false} NothingMutated(results: seq<FieldResult>)
    requires forall r | r in results :: !r.mutated
    ensures Mutations(results) == 0
  {
    if results != [] {
      var n := |results| - 1;
      assert results[n] in results;
      NothingMutated(results[..n]);
    }
  }

  lemma FileIsTold(plans: seq<FieldPlan>, digest: string)
    requires digest != "" && Identity.Lower(digest) == Identity.Lower(ASSET.sha256)
    ensures FilesTold([UPLOAD], WitnessScript(plans, digest).files, [FileResultOf(digest)])
    ensures AllAttached([FileResultOf(digest)]) && Executions([FileResultOf(digest)]) == 0
  {
    assert [FileResultOf(digest)][..0] == [];
    assert Matches(Readback("cv.pdf", 1, "application/pdf", digest), ASSET);
    assert FileTold(UPLOAD, WitnessScript(plans, digest).files(0), FileResultOf(digest));
  }

  function WitnessReview(plans: seq<FieldPlan>): Review
    requires S.Validate(ReviewOf(plans), S.APPROVED, DEFAULT_AUTHORITY).Ok?
  {
    Review("f", 0, true, true, S.Validate(ReviewOf(plans), S.APPROVED, DEFAULT_AUTHORITY).value)
  }

  lemma NoneRequired(c: PageControl, d: PageControl)
    requires !c.required && !d.required
    ensures RequiredCount([c, d]) == 0
  {
    assert [c, d][..1] == [c];
    assert RequiredCount([c, d]) == RequiredCount([c]);
    assert [c][..0] == [];
    assert RequiredCount([c]) == RequiredCount([]);
  }

  lemma ReviewIsTold(plans: seq<FieldPlan>, digest: string)
    requires S.Validate(ReviewOf(plans), S.APPROVED, DEFAULT_AUTHORITY).Ok?
    ensures ReviewTold(WitnessLibrary(), WitnessRequest(plans), S.APPROVED, WitnessScript(plans, digest), "u",
                       WitnessReview(plans))
  {
    NoneRequired(TEXT_CONTROL, FILE_CONTROL);
  }

  /** On this page the executor may propose the result as ready, for any such plans. */
  lemma WitnessIsReady(plans: seq<FieldPlan>, digest: string)
    requires ForTheControl(plans)
    requires digest != "" && Identity.Lower(digest) == Identity.Lower(ASSET.sha256)
    ensures S.Validate(ReviewOf(plans), S.APPROVED, DEFAULT_AUTHORITY).Ok?
    ensures ReadyTold(WitnessLibrary(), WitnessRequest(plans), S.APPROVED, WitnessScript(plans, digest),
                      WitnessResult(plans, digest))
    ensures Accounted(WitnessLibrary(), WitnessRequest(plans), WitnessScript(plans, digest), WitnessResult(plans, digest))
  {
    ReviewIsEligible(plans);
    ControlsFit(plans);
    FieldsAreTold(plans, digest);
    FieldsAreVerified(plans);
    FileIsTold(plans, digest);
    ReviewIsTold(plans, digest);
    ProposalTold(WitnessLibrary(), WitnessRequest(plans), S.APPROVED, WitnessScript(plans, digest), "u",
                 WitnessReview(plans), FieldResultsOf(plans), [FileResultOf(digest)]);
  }

  // ----- The three refusals

  const EMAIL := "candidate.email"

  lemma EmailIsWritable(planKey: string, canonicalField: string)
    requires Identity.Strip(canonicalField) == EMAIL
    ensures Writable(TextPlan(planKey, canonicalField))
  {
    Identity.TrimmedIsStripped("text");
    assert forall i | 0 <= i < 4 :: Identity.LowerChar("text"[i]) == "text"[i];
    assert Identity.Lower(Identity.Strip("text")) == "text";
    assert EMAIL[0] == 'c' && EMAIL[1] == 'a';
    assert "application.final_submit"[0] == 'a' && "experience.relevant_years"[0] == 'e';
    assert "employment.earliest_start_date"[0] == 'e' && "work."[0] == 'w' && "compensation."[1] == 'o';
    assert "consent."[1] == 'o' && "demographic."[0] == 'd' && "document."[0] == 'd' && "technical."[0] == 't';
    assert IsSafeField(EMAIL);
  }

  /** Two plans for one control make a ready result that no reviewed request binds. */
  lemma TwoPlansForOneControl(v: D.Reviewed)
    ensures var plans := [TextPlan("p", EMAIL), TextPlan("q", EMAIL)];
            var digest := ASSET.sha256;
            && S.Validate(ReviewOf(plans), S.APPROVED, DEFAULT_AUTHORITY).Ok?
            && ReadyTold(WitnessLibrary(), WitnessRequest(plans), S.APPROVED, WitnessScript(plans, digest),
                         WitnessResult(plans, digest))
            && Accounted(WitnessLibrary(), WitnessRequest(plans), WitnessScript(plans, digest), WitnessResult(plans, digest))
            && !D.KeysBind(v, WitnessResult(plans, digest))
  {
    var plans := [TextPlan("p", EMAIL), TextPlan("q", EMAIL)];
    Identity.TrimmedIsStripped(EMAIL);
    EmailIsWritable("p", EMAIL);
    EmailIsWritable("q", EMAIL);
    WitnessIsReady(plans, ASSET.sha256);
    D.ReadyKeysBindIff(WitnessLibrary(), WitnessRequest(plans), S.APPROVED, WitnessScript(plans, ASSET.sha256),
                       WitnessResult(plans, ASSET.sha256), v);
    assert D.PlanKey()(plans[0]) == D.PlanKey()(plans[1]);
    assert !Indexing.Distinct(D.PlanKey(), WitnessRequest(plans).fields);
  }

  const PADDED := " candidate.email"

  lemma PaddedIsStripped()
    ensures Identity.Strip(PADDED) == EMAIL && PADDED != EMAIL
    ensures !IsSafeField(PADDED) && !IsDynamicField(PADDED)
  {
    assert Identity.FirstKept(PADDED, 0) == Identity.FirstKept(PADDED, 1) == 1;
    assert Identity.LastKept(PADDED, 1, |PADDED|) == |PADDED|;
    assert PADDED[1..] == EMAIL;
    assert |PADDED| == |EMAIL| + 1;
    if IsSafeField(PADDED) || IsDynamicField(PADDED) {
      D.SafeNamesAreUnpadded(PADDED);
    }
  }

  /** A padded field name is written, and refused as it stands. */
  lemma PaddedNameIsRefused()
    ensures var plans := [TextPlan("p", PADDED)];
            var digest := ASSET.sha256;
            && S.Validate(ReviewOf(plans), S.APPROVED, DEFAULT_AUTHORITY).Ok?
            && ReadyTold(WitnessLibrary(), WitnessRequest(plans), S.APPROVED, WitnessScript(plans, digest),
                         WitnessResult(plans, digest))
            && Accounted(WitnessLibrary(), WitnessRequest(plans), WitnessScript(plans, digest), WitnessResult(plans, digest))
            && !D.FieldVerified(WitnessResult(plans, digest).fieldResults[0])
  {
    var plans := [TextPlan("p", PADDED)];
    PaddedIsStripped();
    EmailIsWritable("p", PADDED);
    WitnessIsReady(plans, ASSET.sha256);
    assert WitnessResult(plans, ASSET.sha256).fieldResults[0].canonicalField == PADDED;
  }

  /** A digest in upper case matches for the executor, and not for the receipt. */
  lemma UpperCaseDigestIsRefused()
    ensures var plans := [TextPlan("p", EMAIL)];
            var digest := Repeated('A', 64);
            && S.Validate(ReviewOf(plans), S.APPROVED, DEFAULT_AUTHORITY).Ok?
            && ReadyTold(WitnessLibrary(), WitnessRequest(plans), S.APPROVED, WitnessScript(plans, digest),
                         WitnessResult(plans, digest))
            && Accounted(WitnessLibrary(), WitnessRequest(plans), WitnessScript(plans, digest), WitnessResult(plans, digest))
            && !D.CvVerified(WitnessResult(plans, digest).fileResults[0])
  {
    var plans, digest := [TextPlan("p", EMAIL)], Repeated('A', 64);
    Identity.TrimmedIsStripped(EMAIL);
    EmailIsWritable("p", EMAIL);
    assert Identity.Lower(digest) == Identity.Lower(ASSET.sha256);
    WitnessIsReady(plans, digest);
    assert digest[0] == 'A' && ASSET.sha256[0] == 'a';
  }

  // ----- A receipt can be accepted

  const CV_CONTROL := S.Control("b", "CV", true, "document.cv", S.HighConfidence, S.Artifact, "", "", "cv-1", false, true,
                                true)

  function LiveReview(): S.Request {
    S.Request("e", "o", "r", "p", "u", Repeated('a', 24), S.Match, true, true, [CV_CONTROL], {}, S.R2SingleCanary, 0, "",
              S.POLICY_VERSION)
  }

  function LiveResult(submitKey: string): Prepared {
    var w := S.Validation("", submitKey, S.Eligible, true, true, [], false, 1, 1, true, true, false);
    Prepared(PreSubmitReady, true, "e", "o", "r", "u", "u", "smartrecruiters", Repeated('a', 24), Repeated('a', 24), 1, 1,
             [], [FileResultOf(ASSET.sha256)], 0, 0, true, true, Some(w), true)
  }

  const LIVE_AUTHORITY := S.SubmitAuthority(true, true, true, false, false, false, false)

  lemma LiveConditionsHold()
    ensures S.MeetsConditions(LiveReview()) && Identity.SubmitIdentity("o", "r", "p").Some?
  {
    OneLetterIsPresent("e");
    OneLetterIsPresent("o");
    OneLetterIsPresent("r");
    OneLetterIsPresent("p");
    OneLetterIsPresent("u");
    Identity.PresentIfFirstKept(Repeated('a', 24));
    assert Identity.IsBlank("");
  }

  lemma CvRulesHold()
    ensures S.MeetsRules(CV_CONTROL)
  {
    Identity.PresentIfFirstKept("cv-1");
    Identity.PresentIfFirstKept("document.cv");
    assert !("demographic." <= "document.cv") by {
      assert "demographic."[1] != "document.cv"[1];
    }
  }

  lemma LiveReviewIsAllowed()
    ensures var w := S.Validate(LiveReview(), S.APPROVED, LIVE_AUTHORITY); w.Ok? && w.value.executionAllowed
    ensures Identity.SubmitIdentity("o", "r", "p").Some?
  {
    LiveConditionsHold();
    CvRulesHold();
    Identity.PresentIfFirstKept(S.POLICY_VERSION);
    S.RefusedIff(LiveReview(), S.APPROVED, LIVE_AUTHORITY);
    S.ValidationByRules(LiveReview(), S.APPROVED, LIVE_AUTHORITY);
  }

  function LiveReviewed(): D.Reviewed {
    D.Reviewed(LiveReview(), "smartrecruiters", true)
  }

  lemma LiveIsInOrder(submitKey: string, observedAt: int)
    requires Identity.SubmitIdentity("o", "r", "p") == Some(submitKey)
    ensures D.InOrder(LiveReviewed(), LiveResult(submitKey), observedAt, observedAt)
  {
    LowerAts();
  }

  lemma LiveBinds(submitKey: string)
    ensures D.ListsBind(LiveReviewed(), LiveResult(submitKey)) && D.CvStands(FileResultOf(ASSET.sha256))
  {
    assert LiveReview().controls[0] == CV_CONTROL && CV_CONTROL in LiveReview().controls;
  }

  lemma LiveAnswers(submitKey: string)
    ensures D.Answered(LiveReviewed(), LiveResult(submitKey)) && D.Balanced(LiveResult(submitKey))
  {
    var p := LiveResult(submitKey);
    assert LiveReview().controls[0] == CV_CONTROL && p.fileResults[0] == FileResultOf(ASSET.sha256);
    assert CV_CONTROL in LiveReview().controls && FileResultOf(ASSET.sha256) in p.fileResults;
    assert (set i | 0 <= i < |LiveReview().controls| && LiveReview().controls[i].required) == {0};
    D.MutationsAreFlagged(p.fieldResults);
  }

  /** The checks can all be passed: a receipt that is accepted, with a validation that may be executed. */
  lemma AReceiptIsAccepted(observedAt: int) returns (submitKey: string)
    ensures D.ReceiptAccepted(LiveReviewed(), LiveResult(submitKey), observedAt, observedAt)
    ensures var w := S.Validate(LiveReview(), S.APPROVED, LIVE_AUTHORITY); w.Ok? && w.value.executionAllowed
  {
    LiveReviewIsAllowed();
    submitKey := Identity.SubmitIdentity("o", "r", "p").value;
    LiveIsInOrder(submitKey, observedAt);
    LiveBinds(submitKey);
    LiveAnswers(submitKey);
    D.ReceiptAcceptedIff(LiveReviewed(), LiveResult(submitKey), observedAt, observedAt);
  }

  lemma LowerAts()
    ensures Identity.Lower("smartrecruiters") == "smartrecruiters"
  {
    var s := "smartrecruiters";
    assert forall i | 0 <= i < |s| :: Identity.LowerChar(s[i]) == s[i];
  }
}
