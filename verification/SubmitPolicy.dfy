/**
 SUBMIT-1: the per-field rules, the validator that collects blockers, and what
 being eligible amounts to. A blocker is the datum behind the message text.
 */
module SubmitPolicy {
  import opened Wrappers
  import opened Identity
  import opened Indexing

  datatype Mode = VerifiedFact | ApprovedPolicy | GroundedGenerated | DefaultNo | BlankOptional | NeutralChoice
                | Artifact | Unresolved

  datatype MappingConfidence = HighConfidence | MediumConfidence | LowConfidence

  datatype DriftState = NoBaseline | Match | Drift

  datatype Stage = R0Shadow | R1Prefill | R2SingleCanary | R3Bounded | R4MultiAts | R5Broad

  function DailyCap(stage: Stage): nat {
    match stage case R0Shadow => 0 case R1Prefill => 0 case R2SingleCanary => 1 case _ => 5
  }

  datatype Control = Control(key: string, caption: string, required: bool, field: string, confidence: MappingConfidence,
                             mode: Mode, provenanceRef: string, policyRef: string, artifactRef: string, grounded: bool,
                             explicitUserFact: bool, optionAvailable: bool)
  {
    predicate Mapped() {
      !IsBlank(field)
    }

    predicate HasProvenance() {
      !IsBlank(provenanceRef) || !IsBlank(policyRef) || !IsBlank(artifactRef)
    }
  }

  const POLICY_VERSION := "SUBMIT-1.0"

  /** The approved decisions; `Valid` is what `validate` insists on. */
  datatype Policy = Policy(version: string, autoSubmit: bool, workRightVerifiedOnly: bool, salaryPreapproved: bool,
                           privacyWhenCovered: bool, marketingDefaultNo: bool, demographicBlank: bool,
                           demographicNeutral: bool, groundedNarrative: bool, captchaForbidden: bool,
                           boundedRollout: bool, mw5Parallel: bool)
  {
    predicate Valid() {
      && version == POLICY_VERSION && autoSubmit && workRightVerifiedOnly && salaryPreapproved && privacyWhenCovered
      && marketingDefaultNo && demographicBlank && demographicNeutral && groundedNarrative && captchaForbidden
      && boundedRollout && mw5Parallel
    }
  }

  const APPROVED := Policy(POLICY_VERSION, true, true, true, true, true, true, true, true, true, true, true)

  datatype SubmitAuthority = SubmitAuthority(policyApproved: bool, browserWrite: bool, finalSubmit: bool,
                                             killSwitch: bool, userFactWrite: bool, applicationsWrite: bool,
                                             captchaBypass: bool)
  {
    predicate Valid() {
      policyApproved && !userFactWrite && !applicationsWrite && !captchaBypass
    }

    predicate ClickAllowed() {
      browserWrite && finalSubmit && !killSwitch
    }
  }

  // ----- The rules of one field

  datatype Problem = UnknownControl | LowMapping | UnresolvedControl | TechnicalControl | WorkRightPolicyOff
                   | WorkRightNotVerified | WorkRightNoProvenance | SalaryNotPreapproved | PrivacyPolicyOff
                   | PrivacyNotCovered | MarketingPolicyOff | RequiredMarketing | OptionalMarketing
                   | DemographicPolicyOff | DemographicNotNeutral | DemographicNotBlank | NarrativeNotGrounded
                   | NarrativeNoProvenance | DocumentMissing | ProvenanceMissing

  predicate IsWorkRight(f: string) {
    f == "work.authorization" || f == "work.requires_sponsorship"
  }

  predicate IsDemographic(f: string) {
    |f| >= 12 && f[..12] == "demographic."
  }

  predicate IsNarrative(f: string) {
    f == "application.motivation_text" || f == "document.cover_letter"
  }

  predicate IsDocument(f: string) {
    f == "document.cv" || f == "document.cover_letter"
  }

  function MappingProblem(c: Control): Option<Problem> {
    if !c.required then None
    else if !c.Mapped() then Some(UnknownControl)
    else if c.confidence != HighConfidence then Some(LowMapping)
    else if c.mode == Unresolved then Some(UnresolvedControl)
    else None
  }

  function WorkRightProblem(c: Control, p: Policy): Option<Problem> {
    if !IsWorkRight(c.field) then None
    else if !p.workRightVerifiedOnly then Some(WorkRightPolicyOff)
    else if !c.explicitUserFact || c.mode != VerifiedFact then Some(WorkRightNotVerified)
    else if c.provenanceRef == "" then Some(WorkRightNoProvenance)
    else None
  }

  function ConsentProblem(c: Control, p: Policy): Option<Problem> {
    if c.field == "compensation.salary_expectation" && p.salaryPreapproved
       && (c.mode != ApprovedPolicy || c.policyRef == "") then Some(SalaryNotPreapproved)
    else if c.field == "consent.privacy_acknowledgement" && c.required && !p.privacyWhenCovered then
      Some(PrivacyPolicyOff)
    else if c.field == "consent.privacy_acknowledgement" && c.required
            && (c.mode != ApprovedPolicy || c.policyRef == "") then Some(PrivacyNotCovered)
    else if c.field == "consent.marketing_opt_in" then
      if !p.marketingDefaultNo then Some(MarketingPolicyOff)
      else if c.required then if c.mode != DefaultNo || !c.optionAvailable then Some(RequiredMarketing) else None
      else if c.mode != DefaultNo && c.mode != BlankOptional then Some(OptionalMarketing)
      else None
    else None
  }

  function DemographicProblem(c: Control, p: Policy): Option<Problem> {
    if !IsDemographic(c.field) then None
    else if c.required then
      if !p.demographicNeutral then Some(DemographicPolicyOff)
      else if c.mode != NeutralChoice || !c.optionAvailable then Some(DemographicNotNeutral)
      else None
    else if c.mode != BlankOptional then Some(DemographicNotBlank)
    else None
  }

  function ContentProblem(c: Control, p: Policy): Option<Problem> {
    if IsNarrative(c.field) && c.mode == GroundedGenerated && (!p.groundedNarrative || !c.grounded) then
      Some(NarrativeNotGrounded)
    else if IsNarrative(c.field) && c.mode == GroundedGenerated && c.provenanceRef == "" then
      Some(NarrativeNoProvenance)
    else if IsDocument(c.field) && c.required && (c.mode != Artifact || c.artifactRef == "") then Some(DocumentMissing)
    else if c.required && !c.HasProvenance() then Some(ProvenanceMissing)
    else None
  }

  function First(a: Option<Problem>, b: Option<Problem>): Option<Problem> {
    if a.Some? then a else b
  }

  /** `_field_blocker`: the first rule that the control breaks. */
  function FieldProblem(c: Control, p: Policy): Option<Problem> {
    First(MappingProblem(c),
          First(if c.field == "technical.captcha" then Some(TechnicalControl) else None,
                First(WorkRightProblem(c, p),
                      First(ConsentProblem(c, p), First(DemographicProblem(c, p), ContentProblem(c, p))))))
  }

  // ----- The validator

  datatype Blocker = IdentityIncomplete | PolicyVersionMismatch | FormDrift | InspectionStale | TrackerStale
                   | TechnicalChallenge(text: string) | DuplicateSubmitKey | FieldBlocked(problem: Problem, caption: string)
                   | NegativeSubmissions | DailyCapReached(cap: nat)

  datatype Decision = Eligible | RuntimeDisabled | Blocked | DuplicateSuppressed

  datatype Request = Request(executionId: string, opportunityKey: string, requisitionId: string, profileVersion: string,
                             applyUrl: string, formFingerprint: string, drift: DriftState, inspectionCurrent: bool,
                             trackerCurrent: bool, controls: seq<Control>, existingKeys: set<string>, stage: Stage,
                             submissionsToday: int, technicalChallenge: string, policyVersion: string)

  datatype Validation = Validation(validationKey: string, submitKey: string, decision: Decision, policyEligible: bool,
                                   executionAllowed: bool, blockers: seq<Blocker>, authorityOffWarning: bool,
                                   requiredControls: nat, resolvedRequired: nat, provenanceComplete: bool,
                                   artifactReady: bool, duplicate: bool)

  datatype ValidationError = PolicyRefused | AuthorityRefused | VersionMissing

  function OrEmpty(key: Option<string>): string {
    match key case None => "" case Some(k) => k
  }

  function SubmitKeyOf(r: Request): string {
    OrEmpty(SubmitIdentity(r.opportunityKey, r.requisitionId, r.profileVersion))
  }

  function ValidationKeyOf(r: Request): string {
    if IsBlank(r.executionId) || IsBlank(r.formFingerprint) then ""
    else OrEmpty(ValidationIdentity(r.executionId, r.formFingerprint, r.policyVersion))
  }

  /** `validation_identity` is asked for a key without a policy version. */
  predicate LacksVersion(r: Request) {
    !IsBlank(r.executionId) && !IsBlank(r.formFingerprint) && IsBlank(r.policyVersion)
  }

  predicate IdentityComplete(r: Request) {
    && !IsBlank(r.executionId) && !IsBlank(r.opportunityKey) && !IsBlank(r.requisitionId)
    && !IsBlank(r.profileVersion) && !IsBlank(r.applyUrl) && !IsBlank(r.formFingerprint)
  }

  predicate IsDuplicate(r: Request) {
    SubmitKeyOf(r) != "" && SubmitKeyOf(r) in r.existingKeys
  }

  function When(condition: bool, b: Blocker): seq<Blocker> {
    if condition then [b] else []
  }

  /** The blockers found before the controls are looked at, in order. */
  function RequestBlockers(r: Request, p: Policy): seq<Blocker> {
    When(!IdentityComplete(r), IdentityIncomplete)
    + When(r.policyVersion != p.version, PolicyVersionMismatch)
    + When(r.drift == Drift, FormDrift)
    + When(!r.inspectionCurrent, InspectionStale)
    + When(!r.trackerCurrent, TrackerStale)
    + When(!IsBlank(r.technicalChallenge), TechnicalChallenge(Strip(r.technicalChallenge)))
    + When(IsDuplicate(r), DuplicateSubmitKey)
  }

  function ProblemUnder(p: Policy): Control -> Option<Problem> {
    (c: Control) => FieldProblem(c, p)
  }

  /** One blocker for every control with a problem, in the order of the controls. */
  function BlockersBy(problemOf: Control -> Option<Problem>, controls: seq<Control>): seq<Blocker> {
    if controls == [] then []
    else
      var n := |controls| - 1;
      var problem := problemOf(controls[n]);
      BlockersBy(problemOf, controls[..n])
      + if problem.Some? then [FieldBlocked(problem.value, controls[n].caption)] else []
  }

  function ControlBlockers(controls: seq<Control>, p: Policy): seq<Blocker> {
    BlockersBy(ProblemUnder(p), controls)
  }

  function RateBlockers(r: Request): seq<Blocker> {
    var cap := DailyCap(r.stage);
    When(r.submissionsToday < 0, NegativeSubmissions)
    + When(cap != 0 && r.submissionsToday >= cap, DailyCapReached(cap))
  }

  function AllBlockers(r: Request, p: Policy): seq<Blocker> {
    RequestBlockers(r, p) + ControlBlockers(r.controls, p) + RateBlockers(r)
  }

  /** `dict.fromkeys`: each element at its first occurrence. */
  function Deduplicated<T(==)>(s: seq<T>): seq<T> {
    if s == [] then []
    else
      var n := |s| - 1;
      Deduplicated(s[..n]) + if s[n] in s[..n] then [] else [s[n]]
  }

  function CountIf(f: Control -> bool, controls: seq<Control>): nat {
    if controls == [] then 0
    else CountIf(f, controls[..|controls| - 1]) + if f(controls[|controls| - 1]) then 1 else 0
  }

  function IsRequired(): Control -> bool {
    (c: Control) => c.required
  }

  function IsResolved(p: Policy): Control -> bool {
    (c: Control) => Resolved(c, p)
  }

  predicate Resolved(c: Control, p: Policy) {
    c.required && c.Mapped() && c.confidence == HighConfidence && c.mode != Unresolved && FieldProblem(c, p).None?
  }

  predicate ArtifactReady(c: Control) {
    c.required && IsDocument(c.field) ==> c.artifactRef != ""
  }

  function Validate(r: Request, p: Policy, a: SubmitAuthority): Result<Validation, ValidationError> {
    if !p.Valid() then Err(PolicyRefused)
    else if !a.Valid() then Err(AuthorityRefused)
    else if LacksVersion(r) then Err(VersionMissing)
    else
      var blockers := AllBlockers(r, p);
      var eligible := blockers == [];
      var allowed := eligible && r.stage != R0Shadow && r.stage != R1Prefill && a.ClickAllowed();
      var decision := if IsDuplicate(r) then DuplicateSuppressed
                      else if !eligible then Blocked
                      else if !allowed then RuntimeDisabled
                      else Eligible;
      Ok(Validation(ValidationKeyOf(r), SubmitKeyOf(r), decision, eligible, allowed, Deduplicated(blockers),
                    DailyCap(r.stage) == 0,
                    CountIf(IsRequired(), r.controls), CountIf(IsResolved(p), r.controls),
                    forall c | c in r.controls :: c.required ==> c.HasProvenance(),
                    forall c | c in r.controls :: ArtifactReady(c),
                    IsDuplicate(r)))
  }

  /** The one pass over the controls. */
  method ReviewControls(controls: seq<Control>, p: Policy)
    returns (blockers: seq<Blocker>, required: nat, resolved: nat, provenance: bool, artifacts: bool)
    ensures blockers == ControlBlockers(controls, p)
    ensures required == CountIf(IsRequired(), controls) && resolved == CountIf(IsResolved(p), controls)
    ensures provenance == forall c | c in controls :: c.required ==> c.HasProvenance()
    ensures artifacts == forall c | c in controls :: ArtifactReady(c)
  {
    blockers, required, resolved, provenance, artifacts := [], 0, 0, true, true;
    for i := 0 to |controls|
      invariant blockers == BlockersBy(ProblemUnder(p), controls[..i])
      invariant required == CountIf(IsRequired(), controls[..i])
      invariant resolved == CountIf(IsResolved(p), controls[..i])
      invariant provenance == forall c | c in controls[..i] :: c.required ==> c.HasProvenance()
      invariant artifacts == forall c | c in controls[..i] :: ArtifactReady(c)
    {
      var c := controls[i];
      assert controls[..i + 1][..i] == controls[..i];
      assert controls[..i + 1] == controls[..i] + [c];
      var problem := ProblemUnder(p)(c);
      if problem.Some? {
        blockers := blockers + [FieldBlocked(problem.value, c.caption)];
      }
      if c.required {
        required := required + 1;
      }
      if Resolved(c, p) {
        resolved := resolved + 1;
      }
      provenance := provenance && (c.required ==> c.HasProvenance());
      artifacts := artifacts && ArtifactReady(c);
    }
    assert controls[..|controls|] == controls;
  }

  /** The validator as it runs: blockers accumulate, counters advance with the controls. */
  method ValidatePreSubmit(r: Request, p: Policy, a: SubmitAuthority) returns (v: Result<Validation, ValidationError>)
    ensures v == Validate(r, p, a)
  {
    if !p.Valid() {
      return Err(PolicyRefused);
    }
    if !a.Valid() {
      return Err(AuthorityRefused);
    }
    if LacksVersion(r) {
      return Err(VersionMissing);
    }
    var fieldBlockers, required, resolved, provenance, artifacts := ReviewControls(r.controls, p);
    var blockers := RequestBlockers(r, p) + fieldBlockers + RateBlockers(r);
    var eligible := blockers == [];
    var allowed := eligible && r.stage != R0Shadow && r.stage != R1Prefill && a.ClickAllowed();
    var decision := if IsDuplicate(r) then DuplicateSuppressed else if !eligible then Blocked
                    else if !allowed then RuntimeDisabled else Eligible;
    v := Ok(Validation(ValidationKeyOf(r), SubmitKeyOf(r), decision, eligible, allowed, Deduplicated(blockers),
                       DailyCap(r.stage) == 0, required, resolved, provenance, artifacts, IsDuplicate(r)));
  }

  // ----- What eligibility means

  predicate RequestClear(r: Request, p: Policy) {
    && IdentityComplete(r) && r.policyVersion == p.version && r.drift != Drift && r.inspectionCurrent
    && r.trackerCurrent && IsBlank(r.technicalChallenge) && !IsDuplicate(r)
    && 0 <= r.submissionsToday && (DailyCap(r.stage) == 0 || r.submissionsToday < DailyCap(r.stage))
  }

  lemma {:induction false} ControlBlockersEmptyIff(controls: seq<Control>, p: Policy)
    ensures ControlBlockers(controls, p) == [] <==> forall c | c in controls :: FieldProblem(c, p).None?
  {
    BlockersEmptyIff(ProblemUnder(p), controls);
    assert forall c: Control :: ProblemUnder(p)(c) == FieldProblem(c, p);
  }

  lemma {:induction false} BlockersEmptyIff(problemOf: Control -> Option<Problem>, controls: seq<Control>)
    ensures BlockersBy(problemOf, controls) == [] <==> forall c | c in controls :: problemOf(c).None?
  {
    if controls != [] {
      var n := |controls| - 1;
      BlockersEmptyIff(problemOf, controls[..n]);
      assert controls == controls[..n] + [controls[n]];
    }
  }

  /** Eligible exactly when the request is clear and no control breaks a rule. */
  lemma EligibleIff(r: Request, p: Policy)
    ensures AllBlockers(r, p) == [] <==> RequestClear(r, p) && forall c | c in r.controls :: FieldProblem(c, p).None?
  {
    ControlBlockersEmptyIff(r.controls, p);
  }

  // ----- Eligibility by the rules themselves

  /**
   What the approved policy demands of one control, each rule on the control's
   own entries: required answers are mapped, certain and sourced; no technical
   control; work rights are explicit verified facts; salary and required privacy
   rest on an approved policy; marketing and demographic questions get the
   neutral answer; generated text is grounded; documents are artifacts.
   */
  predicate MeetsRules(c: Control) {
    && (c.required ==>
          && !IsBlank(c.field) && c.confidence == HighConfidence && c.mode != Unresolved
          && !(IsBlank(c.provenanceRef) && IsBlank(c.policyRef) && IsBlank(c.artifactRef)))
    && c.field != "technical.captcha"
    && (c.field in {"work.authorization", "work.requires_sponsorship"} ==>
          c.explicitUserFact && c.mode == VerifiedFact && c.provenanceRef != "")
    && (c.field == "compensation.salary_expectation" ==> c.mode == ApprovedPolicy && c.policyRef != "")
    && (c.field == "consent.privacy_acknowledgement" && c.required ==> c.mode == ApprovedPolicy && c.policyRef != "")
    && (c.field == "consent.marketing_opt_in" ==>
          if c.required then c.mode == DefaultNo && c.optionAvailable else c.mode in {DefaultNo, BlankOptional})
    && ("demographic." <= c.field ==>
          if c.required then c.mode == NeutralChoice && c.optionAvailable else c.mode == BlankOptional)
    && (c.field in {"application.motivation_text", "document.cover_letter"} && c.mode == GroundedGenerated ==>
          c.grounded && c.provenanceRef != "")
    && (c.field in {"document.cv", "document.cover_letter"} && c.required ==> c.mode == Artifact && c.artifactRef != "")
  }

  lemma ProblemFreeIff(c: Control, p: Policy)
    requires p.Valid()
    ensures FieldProblem(c, p) == None <==> MeetsRules(c)
  {
    FamiliesAreApart(c.field);
    MappingIff(c);
    ConsentIff(c, p);
    ContentIff(c, p);
  }

  /** The questions about consent, work rights and demographics are different fields. */
  lemma FamiliesAreApart(f: string)
    ensures IsDemographic(f) <==> "demographic." <= f
    ensures IsWorkRight(f) ==> f[0] == 'w'
    ensures f in {"consent.privacy_acknowledgement", "consent.marketing_opt_in", "compensation.salary_expectation"} ==>
              f[0] == 'c'
    ensures IsDemographic(f) ==> f[0] == 'd' && f[1] == 'e'
    ensures IsDocument(f) ==> f[0] == 'd' && f[1] == 'o'
  {
    assert "demographic."[0] == 'd' && "demographic."[1] == 'e';
  }

  lemma MappingIff(c: Control)
    ensures MappingProblem(c) == None <==>
            (c.required ==> !IsBlank(c.field) && c.confidence == HighConfidence && c.mode != Unresolved)
  {
  }

  lemma ConsentIff(c: Control, p: Policy)
    requires p.Valid()
    ensures ConsentProblem(c, p) == None <==>
            && (c.field == "compensation.salary_expectation" ==> c.mode == ApprovedPolicy && c.policyRef != "")
            && (c.field == "consent.privacy_acknowledgement" && c.required ==> c.mode == ApprovedPolicy && c.policyRef != "")
            && (c.field == "consent.marketing_opt_in" ==>
                  if c.required then c.mode == DefaultNo && c.optionAvailable else c.mode in {DefaultNo, BlankOptional})
  {
  }

  lemma ContentIff(c: Control, p: Policy)
    requires p.Valid()
    ensures ContentProblem(c, p) == None <==>
            && (c.field in {"application.motivation_text", "document.cover_letter"} && c.mode == GroundedGenerated ==>
                  c.grounded && c.provenanceRef != "")
            && (c.field in {"document.cv", "document.cover_letter"} && c.required ==>
                  c.mode == Artifact && c.artifactRef != "")
            && (c.required ==> !(IsBlank(c.provenanceRef) && IsBlank(c.policyRef) && IsBlank(c.artifactRef)))
  {
  }

  /** What each reported problem says of the control. */
  predicate Breaks(c: Control, q: Problem) {
    match q
    case UnknownControl => c.required && IsBlank(c.field)
    case LowMapping => c.required && c.confidence != HighConfidence
    case UnresolvedControl => c.required && c.mode == Unresolved
    case TechnicalControl => c.field == "technical.captcha"
    case WorkRightNotVerified =>
      c.field in {"work.authorization", "work.requires_sponsorship"} && !(c.explicitUserFact && c.mode == VerifiedFact)
    case WorkRightNoProvenance => c.field in {"work.authorization", "work.requires_sponsorship"} && c.provenanceRef == ""
    case SalaryNotPreapproved =>
      c.field == "compensation.salary_expectation" && !(c.mode == ApprovedPolicy && c.policyRef != "")
    case PrivacyNotCovered =>
      c.required && c.field == "consent.privacy_acknowledgement" && !(c.mode == ApprovedPolicy && c.policyRef != "")
    case RequiredMarketing =>
      c.required && c.field == "consent.marketing_opt_in" && !(c.mode == DefaultNo && c.optionAvailable)
    case OptionalMarketing =>
      !c.required && c.field == "consent.marketing_opt_in" && c.mode !in {DefaultNo, BlankOptional}
    case DemographicNotNeutral =>
      c.required && "demographic." <= c.field && !(c.mode == NeutralChoice && c.optionAvailable)
    case DemographicNotBlank => !c.required && "demographic." <= c.field && c.mode != BlankOptional
    case NarrativeNotGrounded =>
      c.field in {"application.motivation_text", "document.cover_letter"} && c.mode == GroundedGenerated && !c.grounded
    case NarrativeNoProvenance =>
      && c.field in {"application.motivation_text", "document.cover_letter"} && c.mode == GroundedGenerated
      && c.provenanceRef == ""
    case DocumentMissing =>
      c.required && c.field in {"document.cv", "document.cover_letter"} && !(c.mode == Artifact && c.artifactRef != "")
    case ProvenanceMissing =>
      c.required && IsBlank(c.provenanceRef) && IsBlank(c.policyRef) && IsBlank(c.artifactRef)
    case _ => false
  }

  lemma MappingBreaks(c: Control)
    ensures MappingProblem(c).Some? ==> Breaks(c, MappingProblem(c).value)
  {
  }

  lemma WorkRightBreaks(c: Control, p: Policy)
    requires p.Valid()
    ensures WorkRightProblem(c, p).Some? ==> Breaks(c, WorkRightProblem(c, p).value)
  {
  }

  lemma ConsentBreaks(c: Control, p: Policy)
    requires p.Valid()
    ensures ConsentProblem(c, p).Some? ==> Breaks(c, ConsentProblem(c, p).value)
  {
  }

  lemma DemographicBreaks(c: Control, p: Policy)
    requires p.Valid()
    ensures DemographicProblem(c, p).Some? ==> Breaks(c, DemographicProblem(c, p).value)
  {
    FamiliesAreApart(c.field);
  }

  lemma ContentBreaks(c: Control, p: Policy)
    requires p.Valid()
    ensures ContentProblem(c, p).Some? ==> Breaks(c, ContentProblem(c, p).value)
  {
  }

  /** A reported problem is one the control has. */
  lemma ReportedProblemIsReal(c: Control, p: Policy)
    requires p.Valid()
    ensures FieldProblem(c, p).Some? ==> Breaks(c, FieldProblem(c, p).value)
  {
    MappingBreaks(c);
    WorkRightBreaks(c, p);
    ConsentBreaks(c, p);
    DemographicBreaks(c, p);
    ContentBreaks(c, p);
  }

  /** What each reported blocker says, of the request or, through the rule that is broken, of a control. */
  ghost predicate IsReal(r: Request, b: Blocker) {
    match b
    case IdentityIncomplete =>
      || IsBlank(r.executionId) || IsBlank(r.opportunityKey) || IsBlank(r.requisitionId)
      || IsBlank(r.profileVersion) || IsBlank(r.applyUrl) || IsBlank(r.formFingerprint)
    case PolicyVersionMismatch => r.policyVersion != "SUBMIT-1.0"
    case FormDrift => r.drift == Drift
    case InspectionStale => !r.inspectionCurrent
    case TrackerStale => !r.trackerCurrent
    case TechnicalChallenge(text) => text != "" && text == Strip(r.technicalChallenge)
    case DuplicateSubmitKey =>
      exists k :: k in r.existingKeys && SubmitIdentity(r.opportunityKey, r.requisitionId, r.profileVersion) == Some(k)
    case FieldBlocked(problem, caption) => exists c :: c in r.controls && c.caption == caption && Breaks(c, problem)
    case NegativeSubmissions => r.submissionsToday < 0
    case DailyCapReached(cap) =>
      && r.submissionsToday >= cap && r.stage !in {R0Shadow, R1Prefill} && cap == if r.stage == R2SingleCanary then 1 else 5
  }

  lemma RequestBlockersAreReal(r: Request, p: Policy, b: Blocker)
    requires p.Valid() && (b in RequestBlockers(r, p) || b in RateBlockers(r))
    ensures IsReal(r, b)
  {
    if b == DuplicateSubmitKey {
      assert SubmitIdentity(r.opportunityKey, r.requisitionId, r.profileVersion) == Some(SubmitKeyOf(r));
    }
  }

  /** No blocker is reported that is not so. */
  lemma ReportedBlockersAreReal(r: Request, p: Policy, a: SubmitAuthority, b: Blocker)
    requires Validate(r, p, a).Ok? && b in Validate(r, p, a).value.blockers
    ensures IsReal(r, b)
  {
    DeduplicatedIsFaithful(AllBlockers(r, p));
    assert b in AllBlockers(r, p);
    if b in ControlBlockers(r.controls, p) {
      FieldBlockersAreReal(r.controls, p, b);
    } else {
      RequestBlockersAreReal(r, p, b);
    }
  }

  lemma {:induction false} FieldBlockersAreReal(controls: seq<Control>, p: Policy, b: Blocker)
    requires p.Valid() && b in ControlBlockers(controls, p)
    ensures b.FieldBlocked? && exists c :: c in controls && c.caption == b.caption && Breaks(c, b.problem)
  {
    var n := |controls| - 1;
    if b in ControlBlockers(controls[..n], p) {
      FieldBlockersAreReal(controls[..n], p, b);
      var c :| c in controls[..n] && c.caption == b.caption && Breaks(c, b.problem);
      assert c in controls;
    } else {
      ReportedProblemIsReal(controls[n], p);
      assert controls[n] in controls;
    }
  }

  /** The request's own half: complete, current, undisturbed, new, and under the cap of its stage. */
  predicate MeetsConditions(r: Request) {
    && !IsBlank(r.executionId) && !IsBlank(r.opportunityKey) && !IsBlank(r.requisitionId) && !IsBlank(r.profileVersion)
    && !IsBlank(r.applyUrl) && !IsBlank(r.formFingerprint)
    && r.policyVersion == "SUBMIT-1.0" && r.drift != Drift && r.inspectionCurrent && r.trackerCurrent
    && IsBlank(r.technicalChallenge)
    && (forall key | key in r.existingKeys ::
          SubmitIdentity(r.opportunityKey, r.requisitionId, r.profileVersion) != Some(key))
    && 0 <= r.submissionsToday
    && match r.stage
       case R0Shadow => true
       case R1Prefill => true
       case R2SingleCanary => r.submissionsToday < 1
       case _ => r.submissionsToday < 5
  }

  lemma ClearIff(r: Request, p: Policy)
    requires p.Valid()
    ensures RequestClear(r, p) <==> MeetsConditions(r)
  {
    if AllPresent(r.opportunityKey, r.requisitionId, r.profileVersion) {
      SubmitIdentityIsPresent(r.opportunityKey, r.requisitionId, r.profileVersion);
    }
  }

  /** Eligible exactly when the request meets its conditions and every control meets the rules. */
  lemma EligibleByRules(r: Request, p: Policy)
    requires p.Valid()
    ensures AllBlockers(r, p) == [] <==> MeetsConditions(r) && forall c | c in r.controls :: MeetsRules(c)
  {
    EligibleIff(r, p);
    ClearIff(r, p);
    forall c | c in r.controls
      ensures FieldProblem(c, p).None? <==> MeetsRules(c)
    {
      ProblemFreeIff(c, p);
    }
  }

  /** The refusals of the validator come before everything else, in this order: only the approved policy passes. */
  lemma RefusedIff(r: Request, p: Policy, a: SubmitAuthority)
    ensures var withinBoundary := a.policyApproved && !a.userFactWrite && !a.applicationsWrite && !a.captchaBypass;
            && (Validate(r, p, a) == Err(PolicyRefused) <==> p != APPROVED)
            && (Validate(r, p, a) == Err(AuthorityRefused) <==> p == APPROVED && !withinBoundary)
            && (Validate(r, p, a) == Err(VersionMissing) <==>
                && p == APPROVED && withinBoundary
                && !IsBlank(r.executionId) && !IsBlank(r.formFingerprint) && IsBlank(r.policyVersion))
  {
  }

  lemma BlockedIfDuplicate(r: Request, p: Policy)
    ensures IsDuplicate(r) ==> AllBlockers(r, p) != []
    ensures Deduplicated(AllBlockers(r, p)) == [] <==> AllBlockers(r, p) == []
  {
    if IsDuplicate(r) {
      assert DuplicateSubmitKey in RequestBlockers(r, p);
      assert DuplicateSubmitKey in AllBlockers(r, p);
    }
    DeduplicatedIsFaithful(AllBlockers(r, p));
    if AllBlockers(r, p) != [] {
      assert AllBlockers(r, p)[0] in Deduplicated(AllBlockers(r, p));
    }
  }

  /** What follows from being eligible or not; `eligible` stands for the absence of blockers. */
  lemma DecisionIs(r: Request, p: Policy, a: SubmitAuthority, eligible: bool)
    requires Validate(r, p, a).Ok? && eligible == (AllBlockers(r, p) == [])
    ensures var v := Validate(r, p, a).value;
            var running := r.stage in {R2SingleCanary, R3Bounded, R4MultiAts, R5Broad};
            var clicks := a.browserWrite && a.finalSubmit && !a.killSwitch;
            && (v.policyEligible <==> eligible)
            && (v.blockers == [] <==> eligible)
            && (v.executionAllowed <==> eligible && running && clicks)
            && (v.decision == Eligible <==> eligible && running && clicks)
            && (v.decision == RuntimeDisabled <==> eligible && !(running && clicks))
            && (v.decision == DuplicateSuppressed <==> v.duplicate)
            && (v.decision == Blocked <==> !eligible && !v.duplicate)
            && (v.authorityOffWarning <==> r.stage in {R0Shadow, R1Prefill})
  {
    BlockedIfDuplicate(r, p);
  }

  /** The answer of the validator, by the rules. */
  lemma ValidationByRules(r: Request, p: Policy, a: SubmitAuthority)
    requires Validate(r, p, a).Ok?
    ensures var v := Validate(r, p, a).value;
            var eligible := MeetsConditions(r) && forall c | c in r.controls :: MeetsRules(c);
            var running := r.stage in {R2SingleCanary, R3Bounded, R4MultiAts, R5Broad};
            var clicks := a.browserWrite && a.finalSubmit && !a.killSwitch;
            && (v.policyEligible <==> eligible)
            && (v.blockers == [] <==> eligible)
            && (v.executionAllowed <==> eligible && running && clicks)
            && (v.decision == Eligible <==> eligible && running && clicks)
            && (v.decision == RuntimeDisabled <==> eligible && !(running && clicks))
            && (v.decision == DuplicateSuppressed <==> v.duplicate)
            && (v.decision == Blocked <==> !eligible && !v.duplicate)
            && (v.authorityOffWarning <==> r.stage in {R0Shadow, R1Prefill})
  {
    EligibleByRules(r, p);
    DecisionIs(r, p, a, AllBlockers(r, p) == []);
  }

  /** The keys: those of the three parts, when all are given; a duplicate is a key that is known. */
  lemma ValidationKeys(r: Request, p: Policy, a: SubmitAuthority)
    requires Validate(r, p, a).Ok?
    ensures var v := Validate(r, p, a).value;
            && (if IsBlank(r.opportunityKey) || IsBlank(r.requisitionId) || IsBlank(r.profileVersion) then v.submitKey == ""
                else Some(v.submitKey) == SubmitIdentity(r.opportunityKey, r.requisitionId, r.profileVersion))
            && (if IsBlank(r.executionId) || IsBlank(r.formFingerprint) then v.validationKey == ""
                else Some(v.validationKey) == ValidationIdentity(r.executionId, r.formFingerprint, r.policyVersion))
            && (v.duplicate <==> v.submitKey != "" && v.submitKey in r.existingKeys)
  {
  }

  /** The counts are counts: as many as there are positions with a required, or a required and faultless, control. */
  lemma {:induction false} CountIsCardinality(f: Control -> bool, controls: seq<Control>)
    ensures CountIf(f, controls) == |set i | 0 <= i < |controls| && f(controls[i])|
  {
    if controls != [] {
      var n := |controls| - 1;
      CountIsCardinality(f, controls[..n]);
      var before := set i | 0 <= i < n && f(controls[..n][i]);
      assert (set i | 0 <= i < |controls| && f(controls[i])) == before + if f(controls[n]) then {n} else {};
    }
  }

  lemma ResolvedByRules(c: Control, p: Policy)
    requires p.Valid()
    ensures IsResolved(p)(c) <==> c.required && MeetsRules(c)
  {
    ProblemFreeIff(c, p);
    if FieldProblem(c, p).None? {
      ProblemFreeControl(c, p);
    }
  }

  lemma {:induction false} CountByRules(controls: seq<Control>, p: Policy)
    requires p.Valid()
    ensures CountIf(IsResolved(p), controls)
            == |set i | 0 <= i < |controls| && controls[i].required && MeetsRules(controls[i])|
  {
    CountIsCardinality(IsResolved(p), controls);
    forall c | c in controls
      ensures IsResolved(p)(c) <==> c.required && MeetsRules(c)
    {
      ResolvedByRules(c, p);
    }
    assert (set i | 0 <= i < |controls| && IsResolved(p)(controls[i]))
           == set i | 0 <= i < |controls| && controls[i].required && MeetsRules(controls[i]);
  }

  lemma ValidationCounts(r: Request, p: Policy, a: SubmitAuthority)
    requires Validate(r, p, a).Ok?
    ensures var v := Validate(r, p, a).value;
            && v.requiredControls == |set i | 0 <= i < |r.controls| && r.controls[i].required|
            && v.resolvedRequired
               == |set i | 0 <= i < |r.controls| && r.controls[i].required && MeetsRules(r.controls[i])|
            && (v.provenanceComplete <==> forall c | c in r.controls && c.required ::
                  !(IsBlank(c.provenanceRef) && IsBlank(c.policyRef) && IsBlank(c.artifactRef)))
            && (v.artifactReady <==> forall c | c in r.controls && c.required ::
                  c.field in {"document.cv", "document.cover_letter"} ==> c.artifactRef != "")
  {
    CountIsCardinality(IsRequired(), r.controls);
    assert (set i | 0 <= i < |r.controls| && IsRequired()(r.controls[i]))
           == set i | 0 <= i < |r.controls| && r.controls[i].required;
    CountByRules(r.controls, p);
  }

  lemma {:induction false} CountsAgree(f: Control -> bool, g: Control -> bool, controls: seq<Control>)
    requires forall c | c in controls :: f(c) == g(c)
    ensures CountIf(f, controls) == CountIf(g, controls)
  {
    if controls != [] {
      var n := |controls| - 1;
      assert controls[n] in controls;
      assert forall c | c in controls[..n] :: c in controls;
      CountsAgree(f, g, controls[..n]);
    }
  }

  /** What the absence of a problem gives for one control. */
  lemma ProblemFreeControl(c: Control, p: Policy)
    requires FieldProblem(c, p).None?
    ensures (c.required <==> Resolved(c, p)) && (c.required ==> c.HasProvenance()) && ArtifactReady(c)
  {
  }

  lemma {:induction false} ControlsAreComplete(controls: seq<Control>, p: Policy)
    requires forall c | c in controls :: FieldProblem(c, p).None?
    ensures CountIf(IsRequired(), controls) == CountIf(IsResolved(p), controls)
    ensures forall c | c in controls :: (c.required ==> c.HasProvenance()) && ArtifactReady(c)
  {
    forall c | c in controls
      ensures (c.required <==> Resolved(c, p)) && (c.required ==> c.HasProvenance()) && ArtifactReady(c)
    {
      ProblemFreeControl(c, p);
    }
    CountsAgree(IsRequired(), IsResolved(p), controls);
  }

  /** Every required control resolved, all provenance, the documents, no duplicate, and a submit key. */
  predicate Complete(v: Validation) {
    && v.resolvedRequired == v.requiredControls && v.provenanceComplete && v.artifactReady && !v.duplicate
    && v.decision in {Eligible, RuntimeDisabled} && v.blockers == [] && v.submitKey != ""
  }

  /** An eligible validation has every required control resolved, all provenance, and its documents. */
  lemma EligibleIsComplete(r: Request, p: Policy, a: SubmitAuthority)
    ensures var v := Validate(r, p, a);
            v.Ok? && v.value.policyEligible ==> Complete(v.value)
  {
    if AllBlockers(r, p) == [] {
      EligibleIff(r, p);
      ControlsAreComplete(r.controls, p);
      SubmitIdentityIsPresent(r.opportunityKey, r.requisitionId, r.profileVersion);
    }
  }

  // ----- Order and monotonicity

  lemma {:induction false} CountSplit(f: Control -> bool, a: seq<Control>, b: seq<Control>)
    ensures CountIf(f, a + b) == CountIf(f, a) + CountIf(f, b)
  {
    if b == [] {
      assert a + b == a;
    } else {
      var n := |b| - 1;
      CountSplit(f, a, b[..n]);
      assert (a + b)[..|a + b| - 1] == a + b[..n];
    }
  }

  lemma {:induction false} CountWithout(f: Control -> bool, before: seq<Control>, x: Control, after: seq<Control>)
    ensures CountIf(f, before + [x] + after) == CountIf(f, before + after) + if f(x) then 1 else 0
  {
    CountSplit(f, before + [x], after);
    CountSplit(f, before, after);
    assert (before + [x])[..|before|] == before;
  }

  /** Where the first of one list stands in a permutation of it, and what is left without it. */
  lemma FirstIsFound(a: seq<Control>, b: seq<Control>) returns (k: nat)
    requires a != [] && multiset(a) == multiset(b)
    ensures k < |b| && b[k] == a[0] && multiset(a[1..]) == multiset(b[..k] + b[k + 1..])
  {
    assert a == [a[0]] + a[1..];
    assert a[0] in multiset(b);
    k :| 0 <= k < |b| && b[k] == a[0];
    assert b == b[..k] + [a[0]] + b[k + 1..];
    RemoveOne(b[..k], a[0], b[k + 1..], multiset(a[1..]));
  }

  lemma {:induction false} CountIsUnordered(f: Control -> bool, a: seq<Control>, b: seq<Control>)
    requires multiset(a) == multiset(b)
    ensures CountIf(f, a) == CountIf(f, b)
    decreases |a|
  {
    if a == [] {
      assert |multiset(b)| == 0;
    } else {
      var k := FirstIsFound(a, b);
      CountIsUnordered(f, a[1..], b[..k] + b[k + 1..]);
      CountWithout(f, [], a[0], a[1..]);
      CountWithout(f, b[..k], a[0], b[k + 1..]);
      assert a == [] + [a[0]] + a[1..] && [] + a[1..] == a[1..] && b == b[..k] + [b[k]] + b[k + 1..];
    }
  }

  lemma SameMembers(a: seq<Control>, b: seq<Control>, c: Control)
    requires multiset(a) == multiset(b)
    ensures c in a <==> c in b
  {
    assert c in multiset(a) <==> c in multiset(b);
  }

  lemma {:induction false} BlockersAreUnordered(r: Request, s: Request, p: Policy)
    requires s == r.(controls := s.controls) && forall c :: c in s.controls <==> c in r.controls
    ensures AllBlockers(r, p) == [] <==> AllBlockers(s, p) == []
  {
    EligibleIff(r, p);
    EligibleIff(s, p);
  }

  /** Decision, keys and counts do not depend on the order of the controls, and neither does a refusal. */
  lemma ValidationIsUnordered(r: Request, controls: seq<Control>, p: Policy, a: SubmitAuthority)
    requires multiset(controls) == multiset(r.controls)
    ensures var v, w := Validate(r, p, a), Validate(r.(controls := controls), p, a);
            if v.Err? then w == v else w.Ok? && v.value == w.value.(blockers := v.value.blockers)
  {
    forall c
      ensures c in controls <==> c in r.controls
    {
      SameMembers(controls, r.controls, c);
    }
    BlockersAreUnordered(r, r.(controls := controls), p);
    CountIsUnordered(IsRequired(), r.controls, controls);
    CountIsUnordered(IsResolved(p), r.controls, controls);
  }

  /** More controls, or more known submit keys, never make a request eligible that was not. */
  lemma MoreNeverHelps(r: Request, extra: seq<Control>, keys: set<string>, p: Policy, a: SubmitAuthority)
    ensures var larger := Validate(r.(controls := r.controls + extra, existingKeys := r.existingKeys + keys), p, a);
            var v := Validate(r, p, a);
            && (larger.Ok? <==> v.Ok?)
            && (larger.Ok? && larger.value.policyEligible ==> v.value.policyEligible)
            && (larger.Ok? && larger.value.decision == Eligible ==> v.value.decision == Eligible)
  {
    var larger := r.(controls := r.controls + extra, existingKeys := r.existingKeys + keys);
    EligibleIff(larger, p);
    EligibleIff(r, p);
    assert forall c | c in r.controls :: c in larger.controls;
  }

  /** The reported blockers are duplicate-free, keep the order of first occurrence, and lose none. */
  lemma {:induction false} DeduplicatedIsFaithful<T>(s: seq<T>)
    ensures forall x :: x in Deduplicated(s) <==> x in s
    ensures forall i, j | 0 <= i < j < |Deduplicated(s)| :: Deduplicated(s)[i] != Deduplicated(s)[j]
    ensures forall i, j | 0 <= i < j < |s| && s[i] !in s[..i] && s[j] !in s[..j] ::
              exists a, b | 0 <= a < b < |Deduplicated(s)| :: Deduplicated(s)[a] == s[i] && Deduplicated(s)[b] == s[j]
  {
    if s != [] {
      var n := |s| - 1;
      var d, before := Deduplicated(s), Deduplicated(s[..n]);
      DeduplicatedIsFaithful(s[..n]);
      assert s == s[..n] + [s[n]];
      forall i, j | 0 <= i < j < |s| && s[i] !in s[..i] && s[j] !in s[..j]
        ensures exists a, b | 0 <= a < b < |d| :: d[a] == s[i] && d[b] == s[j]
      {
        assert s[..n][..i] == s[..i];
        if j < n {
          assert s[..n][..j] == s[..j];
          var a, b :| 0 <= a < b < |before| && before[a] == s[..n][i] && before[b] == s[..n][j];
          assert d[a] == s[i] && d[b] == s[j];
        } else {
          assert s[i] in s[..n];
          var a :| 0 <= a < |before| && before[a] == s[i];
          assert d[a] == s[i] && d[|before|] == s[n];
        }
      }
    }
  }
}
