/**
 The reviewed manifest: the loader's rules for every proposed field, and the
 compilation of an accepted manifest into the controls that SUBMIT-1 judges. The
 two rule sets were written separately; here one is shown to refine the other.
 */
module ReviewedInputs {
  import opened Wrappers
  import opened Identity
  import S = SubmitPolicy

  /** A JSON value as the loader meets it; numbers are finite. */
  datatype Json = Absent | Null | Bool(b: bool) | Int(i: int) | Float(r: real) | Str(s: string) | Other

  datatype Field = Field(key: Json, selector: Json, caption: Json, kind: Json, required: Json, mode: Json,
                         canonical: Json, value: Json, provenance: Json, policy: Json)

  datatype Upload = Upload(key: Json, selector: Json)

  datatype Step = Step(fields: seq<Field>, upload: Option<Upload>)

  datatype Manifest = Manifest(steps: seq<Step>, cvRef: string)

  /** A verified fact, once validated: its value and where it came from. */
  datatype Fact = Fact(value: Json, sourceRef: string)

  predicate StartsWith(s: string, prefix: string) {
    |prefix| <= |s| && s[..|prefix|] == prefix
  }

  predicate Under(c: string, family: string, names: set<string>) {
    StartsWith(c, family) && c[|family|..] in names
  }

  /** The canonical fields a manifest may use, by family. */
  predicate IsAllowed(c: string) {
    || Under(c, "candidate.", {"first_name", "last_name", "email", "confirm_email", "phone", "phone_country_code",
                               "phone_country", "linkedin_url", "country", "city", "location"})
    || Under(c, "address.", {"line1", "line2", "line3", "city", "state", "state_or_territory", "postal_code", "country",
                             "country_iso2"})
    || Under(c, "location.", {"country", "city", "postal_code"})
    || Under(c, "employment.", {"current_status", "notice_period"})
    || Under(c, "compensation.", {"current_salary", "current_annual_gross", "expected_salary", "salary_expectation",
                                  "expected_annual_gross", "expected_salary_range", "currency"})
    || Under(c, "work.", {"authorization", "work_authorization", "sponsorship_required", "requires_sponsorship",
                          "eligibility", "residency", "currently_lives_in_ireland", "country_of_residence"})
    || Under(c, "demographic.", {"gender", "gender_identity", "sexual_orientation", "caring_responsibilities",
                                 "disability", "disability_status", "ethnicity", "religion"})
    || Under(c, "consent.", {"privacy", "privacy_acknowledgement", "marketing", "marketing_opt_in"})
    || c == "application.motivation_text"
  }

  const KINDS: set<string> := {"text", "email", "tel", "number", "select", "radio", "checkbox"}

  const MODES: set<string> := {
    "Verified Fact", "Approved Policy", "Approved Neutral Choice", "Default No", "Blank Optional"
  }

  const SALARY_FIELDS: set<string> := {
    "compensation.salary_expectation", "compensation.expected_salary", "compensation.expected_annual_gross",
    "compensation.expected_salary_range"
  }

  predicate IsPrivacy(c: string) {
    c == "consent.privacy" || c == "consent.privacy_acknowledgement"
  }

  predicate IsMarketing(c: string) {
    c == "consent.marketing" || c == "consent.marketing_opt_in"
  }

  predicate IsOpaqueJson(j: Json, limit: nat) {
    j.Str? && IsOpaque(j.s, limit)
  }

  predicate IsScalar(j: Json) {
    (j.Str? && |j.s| <= 10000 && '\0' !in j.s) || j.Bool? || j.Int? || j.Float?
  }

  predicate IsBoundedText(j: Json, limit: nat) {
    j.Str? && !IsBlank(j.s) && |j.s| <= limit && '\0' !in j.s
  }

  // ----- Facts

  predicate NeedsExplicitSource(c: string) {
    || StartsWith(c, "work.") || StartsWith(c, "compensation.") || StartsWith(c, "consent.")
    || c == "employment.current_status" || c == "employment.notice_period"
  }

  predicate IsExplicitSource(s: string) {
    exists prefix | prefix in {"user_decision:", "user-decision:", "candidate_verified:", "candidate-verified:"} ::
      StartsWith(Lower(s), prefix) && |s| > |prefix|
  }

  /** One entry of the facts file; `age` is how long ago it was verified, when that can be told. */
  datatype FactEntry = FactEntry(canonical: Json, value: Json, verified: Json, autoFill: Json, source: Json,
                                 age: Option<int>)

  const FACT_MAX_AGE := 30 * 86_400

  /** `isProfile` recognises the profile-card field names, which may be facts but never manifest fields. */
  predicate FactEntryOk(e: FactEntry, isProfile: string -> bool) {
    && e.canonical.Str? && (IsAllowed(e.canonical.s) || isProfile(e.canonical.s))
    && IsScalar(e.value) && e.verified == Bool(true) && e.autoFill == Bool(true)
    && IsOpaqueJson(e.source, 512)
    && e.age.Some? && 0 <= e.age.value <= FACT_MAX_AGE
    && (NeedsExplicitSource(e.canonical.s) ==> IsExplicitSource(e.source.s))
    && (isProfile(e.canonical.s) ==> IsBoundedText(e.value, 10000))
  }

  /** Facts that the loader has accepted. */
  predicate FactsOk(facts: map<string, Fact>) {
    forall c | c in facts ::
      IsOpaque(facts[c].sourceRef, 512) && IsScalar(facts[c].value)
      && (NeedsExplicitSource(c) ==> IsExplicitSource(facts[c].sourceRef))
  }

  function TextOf(j: Json): string {
    if j.Str? then j.s else ""
  }

  /** The check of one entry, as a function value. */
  function FactCheck(isProfile: string -> bool): FactEntry -> bool {
    (e: FactEntry) => FactEntryOk(e, isProfile)
  }

  predicate EntriesOk(entries: seq<FactEntry>, accepts: FactEntry -> bool) {
    (forall e | e in entries :: accepts(e)) && DistinctNames(entries)
  }

  /** The facts by canonical field, each entry added in turn. */
  function Collected(entries: seq<FactEntry>): map<string, Fact> {
    if entries == [] then map[]
    else
      var last := entries[|entries| - 1];
      Collected(entries[..|entries| - 1])[TextOf(last.canonical) := Fact(last.value, TextOf(last.source))]
  }

  ghost predicate CollectedFrom(entries: seq<FactEntry>, c: string, fact: Fact) {
    exists i | 0 <= i < |entries| ::
      TextOf(entries[i].canonical) == c && fact == Fact(entries[i].value, TextOf(entries[i].source))
  }

  predicate DistinctNames(entries: seq<FactEntry>) {
    forall i, j | 0 <= i < j < |entries| :: TextOf(entries[i].canonical) != TextOf(entries[j].canonical)
  }

  lemma CollectedFromLonger(before: seq<FactEntry>, e: FactEntry, c: string, fact: Fact)
    requires CollectedFrom(before, c, fact)
    ensures CollectedFrom(before + [e], c, fact)
  {
    var i :| 0 <= i < |before| && TextOf(before[i].canonical) == c && fact == Fact(before[i].value, TextOf(before[i].source));
    assert (before + [e])[i] == before[i];
  }

  /** Every collected fact comes from an entry. */
  lemma {:induction false} CollectedHasOrigin(entries: seq<FactEntry>)
    ensures forall c | c in Collected(entries) :: CollectedFrom(entries, c, Collected(entries)[c])
  {
    if entries != [] {
      var n := |entries| - 1;
      var before, last := entries[..n], entries[n];
      CollectedHasOrigin(before);
      assert entries == before + [last];
      forall c | c in Collected(entries)
        ensures CollectedFrom(entries, c, Collected(entries)[c])
      {
        if c == TextOf(last.canonical) {
          assert entries[n] == last;
        } else {
          CollectedFromLonger(before, last, c, Collected(before)[c]);
        }
      }
    }
  }

  /** Nothing is lost in collecting entries with distinct names. */
  lemma {:induction false} CollectedIsFaithful(entries: seq<FactEntry>)
    requires DistinctNames(entries)
    ensures |Collected(entries)| == |entries|
    ensures forall e | e in entries :: TextOf(e.canonical) in Collected(entries)
  {
    if entries != [] {
      var n := |entries| - 1;
      var before, last := entries[..n], entries[n];
      CollectedIsFaithful(before);
      CollectedHasOrigin(before);
      assert entries == before + [last];
      assert forall i | 0 <= i < n :: before[i] == entries[i] && TextOf(entries[i].canonical) != TextOf(entries[n].canonical);
      assert TextOf(last.canonical) !in Collected(before);
    }
  }

  /** Accepted entries make acceptable facts. */
  lemma {:induction false} CollectedFactsOk(entries: seq<FactEntry>, isProfile: string -> bool)
    requires EntriesOk(entries, FactCheck(isProfile))
    ensures FactsOk(Collected(entries))
  {
    CollectedHasOrigin(entries);
    var facts := Collected(entries);
    forall c | c in facts
      ensures IsOpaque(facts[c].sourceRef, 512) && IsScalar(facts[c].value)
              && (NeedsExplicitSource(c) ==> IsExplicitSource(facts[c].sourceRef))
    {
      assert CollectedFrom(entries, c, facts[c]);
      var i :| 0 <= i < |entries| && TextOf(entries[i].canonical) == c
               && facts[c] == Fact(entries[i].value, TextOf(entries[i].source));
      assert FactCheck(isProfile)(entries[i]);
      assert FactEntryOk(entries[i], isProfile);
    }
  }

  lemma DistinctNamesGrow(before: seq<FactEntry>, e: FactEntry)
    requires DistinctNames(before)
    ensures DistinctNames(before + [e]) <==> forall b | b in before :: TextOf(b.canonical) != TextOf(e.canonical)
  {
    var all := before + [e];
    assert forall i | 0 <= i < |before| :: all[i] == before[i];
    if DistinctNames(all) {
      forall b | b in before
        ensures TextOf(b.canonical) != TextOf(e.canonical)
      {
        var i :| 0 <= i < |before| && before[i] == b;
        assert all[i] == b && all[|before|] == e;
      }
    }
  }

  /** A name is repeated exactly when the facts collected before it contain it. */
  lemma {:induction false} RepeatedNames(before: seq<FactEntry>, e: FactEntry)
    requires DistinctNames(before)
    ensures TextOf(e.canonical) !in Collected(before) <==> DistinctNames(before + [e])
  {
    DistinctNamesGrow(before, e);
    CollectedIsFaithful(before);
    CollectedHasOrigin(before);
    if TextOf(e.canonical) in Collected(before) {
      assert CollectedFrom(before, TextOf(e.canonical), Collected(before)[TextOf(e.canonical)]);
    }
  }

  /** The loader's pass over the facts; None when any entry is rejected or repeated. */
  method ValidateFacts(entries: seq<FactEntry>, accepts: FactEntry -> bool) returns (facts: Option<map<string, Fact>>)
    ensures facts.Some? <==> 0 < |entries| <= 100 && EntriesOk(entries, accepts)
    ensures facts.Some? ==> facts.value == Collected(entries)
  {
    if !(0 < |entries| <= 100) {
      return None;
    }
    var byField: map<string, Fact> := map[];
    for i := 0 to |entries|
      invariant forall j | 0 <= j < i :: accepts(entries[j])
      invariant DistinctNames(entries[..i]) && byField == Collected(entries[..i])
    {
      var e := entries[i];
      RepeatedNames(entries[..i], e);
      assert entries[..i + 1] == entries[..i] + [e];
      if !accepts(e) || TextOf(e.canonical) in byField {
        return None;
      }
      assert entries[..i + 1][..i] == entries[..i];
      byField := byField[TextOf(e.canonical) := Fact(e.value, TextOf(e.source))];
    }
    assert entries[..|entries|] == entries;
    return Some(byField);
  }

  // ----- Fields

  predicate ValueFitsKind(kind: string, value: Json, numeral: string -> bool) {
    if kind == "checkbox" then value.Bool?
    else if kind == "number" then
      (value.Str? && (value.s == "" || numeral(value.s))) || value.Int? || value.Float?
    else value.Str?
  }

  predicate PolicyNamed(policy: Json) {
    IsOpaqueJson(policy, 512)
  }

  predicate IsPrivacyPolicy(s: string) {
    && |s| > 5 + 17 && StartsWith(s, "USER-")
    && s[|s| - 17..|s| - 8] == "-PRIVACY-"
    && (IsUpper(s[5]) || IsDigit(s[5]))
    && (forall i | 5 < i < |s| - 17 :: IsUpper(s[i]) || IsDigit(s[i]) || s[i] in "_-")
    && (forall i | |s| - 8 <= i < |s| :: IsDigit(s[i]))
  }

  /** The mode and policy rules of `_validate_field` for an allowed canonical field. */
  predicate ModeOk(c: string, kind: string, required: bool, mode: string, value: Json, policy: Json) {
    && (policy.Absent? || policy.Null? || PolicyNamed(policy))
    && (mode == "Approved Policy" || mode == "Approved Neutral Choice" ==> PolicyNamed(policy))
    && (mode == "Default No" ==> IsMarketing(c) && value == Bool(false))
    && (mode == "Blank Optional" ==> !required && (value == Str("") || value == Bool(false)))
    && (if StartsWith(c, "demographic.") then
          if required then mode == "Approved Neutral Choice" && value == Str("Prefer not to say")
                           && policy in {Str("SUBMIT1-A6"), Str("SUBMIT-1-A6")}
          else mode == "Blank Optional" && (value == Str("") || value == Bool(false)) && PolicyNamed(policy)
        else mode != "Approved Neutral Choice")
    && (StartsWith(c, "work.") ==> mode == "Verified Fact")
    && (c in SALARY_FIELDS ==> mode == "Approved Policy" && PolicyNamed(policy))
    && (IsPrivacy(c) ==> kind == "checkbox" && value.Bool?
                         && (value.b ==> mode == "Approved Policy" && policy.Str? && IsPrivacyPolicy(policy.s)))
    && (IsMarketing(c) ==> kind == "checkbox" && !required && value == Bool(false)
                           && (mode == "Default No" || mode == "Blank Optional"))
  }

  /** Everything `_validate_field` demands of one field on its own; `numeral` recognises number texts. */
  predicate FieldOk(f: Field, facts: map<string, Fact>, numeral: string -> bool) {
    && IsOpaqueJson(f.key, 128)
    && IsBoundedText(f.selector, 512) && IsBoundedText(f.caption, 1024)
    && f.kind.Str? && f.kind.s in KINDS
    && f.required.Bool?
    && f.mode.Str? && f.mode.s in MODES
    && f.canonical.Str? && IsAllowed(f.canonical.s) && f.canonical.s in facts
    && IsScalar(f.value) && f.value == facts[f.canonical.s].value
    && f.provenance == Str(facts[f.canonical.s].sourceRef)
    && (f.required.b && f.value.Str? ==> !IsBlank(f.value.s))
    && ValueFitsKind(f.kind.s, f.value, numeral)
    && ModeOk(f.canonical.s, f.kind.s, f.required.b, f.mode.s, f.value, f.policy)
  }

  predicate UploadOk(u: Upload) {
    IsOpaqueJson(u.key, 128) && IsBoundedText(u.selector, 512)
  }

  // ----- Manifests

  function StepKeys(s: Step): seq<Json> {
    seq(|s.fields|, i requires 0 <= i < |s.fields| => s.fields[i].key) + if s.upload.Some? then [s.upload.value.key] else []
  }

  function StepSelectors(s: Step): seq<Json> {
    seq(|s.fields|, i requires 0 <= i < |s.fields| => s.fields[i].selector)
    + if s.upload.Some? then [s.upload.value.selector] else []
  }

  function AllKeys(steps: seq<Step>): seq<Json> {
    if steps == [] then [] else AllKeys(steps[..|steps| - 1]) + StepKeys(steps[|steps| - 1])
  }

  function UploadCount(steps: seq<Step>): nat {
    if steps == [] then 0
    else UploadCount(steps[..|steps| - 1]) + if steps[|steps| - 1].upload.Some? then 1 else 0
  }

  predicate Distinct<T(==)>(s: seq<T>) {
    forall i, j | 0 <= i < j < |s| :: s[i] != s[j]
  }

  /** The check of one field, as a function value. */
  function FieldCheck(facts: map<string, Fact>, numeral: string -> bool): Field -> bool {
    (f: Field) => FieldOk(f, facts, numeral)
  }

  predicate StepOk(s: Step, accepts: Field -> bool) {
    && 0 < |s.fields| <= 100
    && (forall f | f in s.fields :: accepts(f))
    && (s.upload.Some? ==> UploadOk(s.upload.value))
    && Distinct(StepSelectors(s))
  }

  /** An accepted manifest: every step on its own, keys distinct over all steps, exactly one upload. */
  predicate ManifestOk(steps: seq<Step>, accepts: Field -> bool) {
    && 0 < |steps| <= 5
    && (forall s | s in steps :: StepOk(s, accepts))
    && Distinct(AllKeys(steps))
    && UploadCount(steps) == 1
  }

  /** The loader's pass over the steps; `keys` lives across steps and `selectors` within one. */
  method LoadSteps(steps: seq<Step>, accepts: Field -> bool) returns (accepted: bool)
    ensures accepted <==> ManifestOk(steps, accepts)
  {
    if !(0 < |steps| <= 5) {
      return false;
    }
    var keys: seq<Json> := [];
    var uploads := 0;
    for i := 0 to |steps|
      invariant keys == AllKeys(steps[..i]) && Distinct(keys)
      invariant uploads == UploadCount(steps[..i])
      invariant forall s | s in steps[..i] :: StepOk(s, accepts)
    {
      assert steps[..i + 1][..i] == steps[..i] && steps[..i + 1] == steps[..i] + [steps[i]];
      var ok, stepKeys := LoadStep(steps[i], accepts, keys);
      if !ok {
        AllKeysContain(steps, i);
        assert steps[i] in steps;
        return false;
      }
      keys := keys + stepKeys;
      if steps[i].upload.Some? {
        uploads := uploads + 1;
      }
    }
    assert steps[..|steps|] == steps;
    return uploads == 1;
  }

  /** The keys of a step, after the keys of the steps before it, are part of all keys. */
  lemma {:induction false} AllKeysContain(steps: seq<Step>, i: nat)
    requires i < |steps|
    ensures AllKeys(steps[..i]) + StepKeys(steps[i]) <= AllKeys(steps)
    decreases |steps|
  {
    var n := |steps| - 1;
    if i < n {
      AllKeysContain(steps[..n], i);
      assert steps[..n][..i] == steps[..i];
    }
  }

  method LoadStep(s: Step, accepts: Field -> bool, before: seq<Json>)
    returns (ok: bool, keys: seq<Json>)
    requires Distinct(before)
    ensures ok <==> StepOk(s, accepts) && Distinct(before + StepKeys(s))
    ensures ok ==> keys == StepKeys(s)
  {
    keys := [];
    if !(0 < |s.fields| <= 100) {
      return false, keys;
    }
    var selectors: seq<Json> := [];
    for i := 0 to |s.fields|
      invariant keys == StepKeys(s)[..i] && selectors == StepSelectors(s)[..i]
      invariant Distinct(before + keys) && Distinct(selectors)
      invariant forall j | 0 <= j < i :: accepts(s.fields[j])
    {
      var f := s.fields[i];
      assert StepKeys(s)[i] == f.key && StepSelectors(s)[i] == f.selector;
      if !accepts(f) {
        assert f in s.fields;
        return false, keys;
      }
      if f.key in before + keys || f.selector in selectors {
        RepeatBreaksStep(s, before, i);
        return false, keys;
      }
      DistinctGrows(before + keys, f.key);
      assert before + (keys + [f.key]) == before + keys + [f.key];
      keys := keys + [f.key];
      selectors := selectors + [f.selector];
    }
    if s.upload.Some? {
      var u := s.upload.value;
      var n := |s.fields|;
      assert StepKeys(s)[n] == u.key && StepSelectors(s)[n] == u.selector;
      if !UploadOk(u) {
        return false, keys;
      }
      if u.key in before + keys || u.selector in selectors {
        RepeatBreaksStep(s, before, n);
        return false, keys;
      }
      DistinctGrows(before + keys, u.key);
      assert before + (keys + [u.key]) == before + keys + [u.key];
      keys := keys + [u.key];
      selectors := selectors + [u.selector];
    }
    assert keys == StepKeys(s) && selectors == StepSelectors(s);
    return true, keys;
  }

  lemma RepeatBreaksStep(s: Step, before: seq<Json>, i: nat)
    requires i < |StepKeys(s)| && i < |StepSelectors(s)|
    ensures StepKeys(s)[i] in before + StepKeys(s)[..i] || StepSelectors(s)[i] in StepSelectors(s)[..i] ==>
              !Distinct(before + StepKeys(s)) || !Distinct(StepSelectors(s))
  {
    RepeatBreaks(before, StepKeys(s), i);
    RepeatBreaks([], StepSelectors(s), i);
    assert [] + StepSelectors(s) == StepSelectors(s) && [] + StepSelectors(s)[..i] == StepSelectors(s)[..i];
  }

  lemma DistinctGrows(s: seq<Json>, x: Json)
    requires Distinct(s) && x !in s
    ensures Distinct(s + [x])
  {
  }

  /** An element that already occurred makes the whole list repeat itself. */
  lemma RepeatBreaks(before: seq<Json>, s: seq<Json>, i: nat)
    requires i < |s|
    ensures s[i] in before + s[..i] ==> !Distinct(before + s)
  {
    var all := before + s;
    if s[i] in before + s[..i] {
      var j :| 0 <= j < |before| + i && (before + s[..i])[j] == s[i];
      assert all[j] == s[i] && all[|before| + i] == s[i];
    }
  }

  // ----- Compilation into SUBMIT-1 controls

  function Alias(c: string): string {
    if c == "work.sponsorship_required" then "work.requires_sponsorship"
    else if c == "consent.privacy" then "consent.privacy_acknowledgement"
    else if c == "consent.marketing" then "consent.marketing_opt_in"
    else if c == "compensation.expected_annual_gross" then "compensation.salary_expectation"
    else if c == "compensation.expected_salary_range" then "compensation.salary_expectation"
    else c
  }

  function ModeOf(mode: string): S.Mode {
    if mode == "Verified Fact" then S.VerifiedFact
    else if mode == "Approved Policy" then S.ApprovedPolicy
    else if mode == "Approved Neutral Choice" then S.NeutralChoice
    else if mode == "Default No" then S.DefaultNo
    else if mode == "Blank Optional" then S.BlankOptional
    else S.Unresolved
  }

  function ControlKey(step: nat, key: string): string {
    "step" + Decimal(step) + ":" + key
  }

  function Compile(step: nat, f: Field): S.Control {
    S.Control(ControlKey(step, TextOf(f.key)), "Reviewed control", f.required == Bool(true), Alias(TextOf(f.canonical)),
              S.HighConfidence, ModeOf(TextOf(f.mode)), TextOf(f.provenance), TextOf(f.policy), "", false, true, true)
  }

  function CompileStep(step: nat, s: Step): seq<S.Control> {
    seq(|s.fields|, i requires 0 <= i < |s.fields| => Compile(step, s.fields[i]))
  }

  function CompileSteps(steps: seq<Step>): seq<S.Control> {
    if steps == [] then []
    else CompileSteps(steps[..|steps| - 1]) + CompileStep(|steps| - 1, steps[|steps| - 1])
  }

  function CvControl(cvRef: string): S.Control {
    S.Control("approved-cv", "Approved CV", true, "document.cv", S.HighConfidence, S.Artifact, "", "", cvRef, false,
              false, true)
  }

  /** `_resolutions`: every field in order, then the approved CV. */
  function Resolutions(m: Manifest): seq<S.Control> {
    CompileSteps(m.steps) + [CvControl(m.cvRef)]
  }

  /** The one shape that the loader lets through and SUBMIT-1 does not: a required, unticked privacy box under another mode. */
  predicate UncoveredPrivacy(f: Field) {
    f.canonical.Str? && IsPrivacy(f.canonical.s) && f.required == Bool(true) && f.mode != Str("Approved Policy")
  }

  predicate HasFamily(c: string) {
    || StartsWith(c, "candidate.") || StartsWith(c, "address.") || StartsWith(c, "location.")
    || StartsWith(c, "employment.") || StartsWith(c, "compensation.") || StartsWith(c, "work.")
    || StartsWith(c, "demographic.") || StartsWith(c, "consent.") || StartsWith(c, "application.")
  }

  lemma StartsAlike(c: string, prefix: string)
    requires |prefix| > 1 && StartsWith(c, prefix)
    ensures c[0] == prefix[0] && c[1] == prefix[1]
  {
    assert c[..|prefix|][0] == c[0] && c[..|prefix|][1] == c[1];
  }

  /** The shape shared by all allowed names. */
  lemma AllowedNames(c: string)
    requires HasFamily(c)
    ensures |c| > 1 && IsLower(c[0]) && c[0] != 't' && (c[0] == 'd' ==> c[1] == 'e')
  {
    if StartsWith(c, "candidate.") { StartsAlike(c, "candidate."); }
    else if StartsWith(c, "address.") { StartsAlike(c, "address."); }
    else if StartsWith(c, "location.") { StartsAlike(c, "location."); }
    else if StartsWith(c, "employment.") { StartsAlike(c, "employment."); }
    else if StartsWith(c, "compensation.") { StartsAlike(c, "compensation."); }
    else if StartsWith(c, "work.") { StartsAlike(c, "work."); }
    else if StartsWith(c, "demographic.") { StartsAlike(c, "demographic."); }
    else if StartsWith(c, "consent.") { StartsAlike(c, "consent."); }
    else { StartsAlike(c, "application."); }
  }

  lemma AllowedHasFamily(c: string)
    requires IsAllowed(c)
    ensures HasFamily(c)
  {
    assert StartsWith("application.motivation_text", "application.");
  }

  /** What the alias map preserves, for the fields the loader allows. */
  lemma AliasKeepsKind(c: string)
    requires HasFamily(c)
    ensures var f := Alias(c);
            && !IsBlank(f)
            && (S.IsWorkRight(f) ==> StartsWith(c, "work."))
            && (f == "compensation.salary_expectation" ==> c in SALARY_FIELDS)
            && (f == "consent.privacy_acknowledgement" <==> IsPrivacy(c))
            && (f == "consent.marketing_opt_in" <==> IsMarketing(c))
            && (S.IsDemographic(f) <==> StartsWith(c, "demographic."))
            && !S.IsDocument(f) && f != "technical.captcha"
  {
    AllowedNames(c);
    var f := Alias(c);
    assert f[0] != 't' && (f[0] == 'd' ==> f[1] == 'e');
    PresentIfFirstKept(f);
    AliasLetters(c, f);
  }

  /** Document and technical names begin otherwise; demographic ones begin "de". */
  lemma AliasLetters(c: string, f: string)
    requires HasFamily(c) && f == Alias(c) && |f| > 1 && f[0] != 't' && (f[0] == 'd' ==> f[1] == 'e')
    ensures !S.IsDocument(f) && f != "technical.captcha"
    ensures S.IsDemographic(f) <==> StartsWith(c, "demographic.")
  {
    assert "technical.captcha"[0] == 't' && "document.cv"[1] == 'o' && "document.cover_letter"[1] == 'o';
    if f != c && S.IsDemographic(f) {
      assert f[..12][0] == f[0];
    }
    if f != c && StartsWith(c, "demographic.") {
      StartsAlike(c, "demographic.");
    }
  }

  /** The control that a field under the given rules compiles to, and the alias facts about its name. */
  ghost predicate Compiled(ctl: S.Control, c: string, required: bool, mode: string, policy: Json) {
    && ctl.field == Alias(c) && ctl.required == required && ctl.mode == ModeOf(mode) && ctl.policyRef == TextOf(policy)
    && ctl.explicitUserFact && ctl.optionAvailable && ctl.confidence == S.HighConfidence && ctl.provenanceRef != ""
    && !IsBlank(ctl.field) && !IsBlank(ctl.provenanceRef) && !S.IsDocument(ctl.field) && ctl.field != "technical.captcha"
    && (S.IsWorkRight(ctl.field) ==> StartsWith(c, "work."))
    && (ctl.field == "compensation.salary_expectation" ==> c in SALARY_FIELDS)
    && (ctl.field == "consent.privacy_acknowledgement" <==> IsPrivacy(c))
    && (ctl.field == "consent.marketing_opt_in" <==> IsMarketing(c))
    && (S.IsDemographic(ctl.field) <==> StartsWith(c, "demographic."))
  }

  lemma ModesMap(mode: string)
    requires mode in MODES
    ensures ModeOf(mode) != S.Unresolved && ModeOf(mode) != S.GroundedGenerated
    ensures ModeOf(mode) == S.ApprovedPolicy <==> mode == "Approved Policy"
    ensures mode == "Verified Fact" ==> ModeOf(mode) == S.VerifiedFact
    ensures mode == "Approved Neutral Choice" ==> ModeOf(mode) == S.NeutralChoice
    ensures mode == "Default No" ==> ModeOf(mode) == S.DefaultNo
    ensures mode == "Blank Optional" ==> ModeOf(mode) == S.BlankOptional
  {
    assert "Approved Policy"[9] != "Approved Neutral Choice"[9];
    assert "Verified Fact"[0] != "Approved Policy"[0] && "Default No"[0] != "Blank Optional"[0];
  }

  lemma ConsentAsRuled(ctl: S.Control, c: string, kind: string, required: bool, mode: string, value: Json, policy: Json)
    requires mode in MODES && ModeOk(c, kind, required, mode, value, policy) && Compiled(ctl, c, required, mode, policy)
    ensures S.ConsentProblem(ctl, S.APPROVED).None? <==> !(IsPrivacy(c) && required && mode != "Approved Policy")
  {
    ModesMap(mode);
  }

  lemma OthersAsRuled(ctl: S.Control, c: string, kind: string, required: bool, mode: string, value: Json, policy: Json)
    requires mode in MODES && ModeOk(c, kind, required, mode, value, policy) && Compiled(ctl, c, required, mode, policy)
    ensures S.MappingProblem(ctl).None? && S.WorkRightProblem(ctl, S.APPROVED).None?
    ensures S.DemographicProblem(ctl, S.APPROVED).None? && S.ContentProblem(ctl, S.APPROVED).None?
  {
    ModesMap(mode);
  }

  lemma CompilesWell(step: nat, f: Field, facts: map<string, Fact>, numeral: string -> bool)
    requires FactsOk(facts) && FieldOk(f, facts, numeral)
    ensures Compiled(Compile(step, f), f.canonical.s, f.required.b, f.mode.s, f.policy)
  {
    AllowedHasFamily(f.canonical.s);
    AliasKeepsKind(f.canonical.s);
    var source := facts[f.canonical.s].sourceRef;
    assert IsOpaque(source, 512);
    PresentIfFirstKept(source);
  }

  /**
   The refinement: a field the loader accepts breaks no SUBMIT-1 rule, with one
   exception, and exactly that exception.
   */
  lemma AcceptedFieldIsClear(step: nat, f: Field, facts: map<string, Fact>, numeral: string -> bool)
    requires FactsOk(facts) && FieldOk(f, facts, numeral)
    ensures S.FieldProblem(Compile(step, f), S.APPROVED).None? <==> !UncoveredPrivacy(f)
    ensures UncoveredPrivacy(f) ==> f.value == Bool(false)
  {
    var ctl := Compile(step, f);
    CompilesWell(step, f, facts, numeral);
    ConsentAsRuled(ctl, f.canonical.s, f.kind.s, f.required.b, f.mode.s, f.value, f.policy);
    OthersAsRuled(ctl, f.canonical.s, f.kind.s, f.required.b, f.mode.s, f.value, f.policy);
  }

  const DECISION := "user_decision:x"

  lemma DecisionIsExplicit()
    ensures IsExplicitSource(DECISION) && IsOpaque(DECISION, 512)
  {
    var prefix := "user_decision:";
    assert DECISION[..14] == prefix;
    assert forall i | 0 <= i < 15 :: LowerChar(DECISION[i]) == DECISION[i];
    assert Lower(DECISION) == DECISION;
    assert StartsWith(Lower(DECISION), prefix) && |DECISION| > |prefix|;
  }

  lemma PrivacyIsAllowed()
    ensures IsAllowed("consent.privacy")
  {
    var c := "consent.privacy";
    assert c[..8] == "consent." && c[8..] == "privacy";
    assert Under(c, "consent.", {"privacy", "privacy_acknowledgement", "marketing", "marketing_opt_in"});
  }

  /** The mode rules let an unticked privacy box through as a verified fact. */
  lemma UntickedBoxPasses()
    ensures ModeOk("consent.privacy", "checkbox", true, "Verified Fact", Bool(false), Absent)
  {
    var c, mode := "consent.privacy", "Verified Fact";
    assert c[0] == 'c' && c[2] == 'n' && |c| == 15;
    assert "demographic."[0] == 'd' && "work."[0] == 'w';
    assert mode[0] == 'V' && "Approved Policy"[0] == 'A' && "Approved Neutral Choice"[0] == 'A';
    assert "Default No"[0] == 'D' && "Blank Optional"[0] == 'B';
    assert !StartsWith(c, "demographic.") && !StartsWith(c, "work.");
    forall name | name in SALARY_FIELDS
      ensures name != c
    {
      assert name[2] == 'm';
    }
    assert |"consent.marketing"| == 17 && |"consent.marketing_opt_in"| == 24;
  }

  /** A required checkbox, left unticked, with the one fact behind it. */
  function UntickedBox(c: string, mode: string, source: string): Field {
    Field(Str("k"), Str("s"), Str("c"), Str("checkbox"), Bool(true), Str(mode), Str(c), Bool(false), Str(source), Absent)
  }

  function UntickedFact(c: string, source: string): map<string, Fact> {
    map[c := Fact(Bool(false), source)]
  }

  lemma BoundedLetter(s: string)
    requires |s| == 1 && IsAlnum(s[0])
    ensures IsBoundedText(Str(s), 512) && IsBoundedText(Str(s), 1024) && IsOpaqueJson(Str(s), 128)
  {
    PresentIfFirstKept(s);
  }

  lemma UntickedFactOk(c: string, source: string)
    requires IsOpaque(source, 512) && IsExplicitSource(source)
    ensures FactsOk(UntickedFact(c, source))
  {
  }

  lemma UntickedBoxOk(c: string, mode: string, source: string, numeral: string -> bool)
    requires IsAllowed(c) && mode in MODES && ModeOk(c, "checkbox", true, mode, Bool(false), Absent)
    ensures FieldOk(UntickedBox(c, mode, source), UntickedFact(c, source), numeral)
  {
    BoundedLetter("k");
    BoundedLetter("s");
    BoundedLetter("c");
    assert ValueFitsKind("checkbox", Bool(false), numeral);
  }

  /** An instance: a required privacy box, left unticked as a verified fact, that the loader accepts. */
  lemma AnUncoveredBoxIsAccepted(numeral: string -> bool)
    ensures var c := "consent.privacy"; var f := UntickedBox(c, "Verified Fact", DECISION);
            && FactsOk(UntickedFact(c, DECISION)) && FieldOk(f, UntickedFact(c, DECISION), numeral)
            && UncoveredPrivacy(f)
  {
    DecisionIsExplicit();
    PrivacyIsAllowed();
    UntickedBoxPasses();
    UntickedFactOk("consent.privacy", DECISION);
    UntickedBoxOk("consent.privacy", "Verified Fact", DECISION, numeral);
    assert "Verified Fact"[0] == 'V' && "Approved Policy"[0] == 'A';
  }

  // ----- Whole manifests

  predicate NoUncoveredPrivacy(steps: seq<Step>) {
    forall s, f | s in steps && f in s.fields :: !UncoveredPrivacy(f)
  }

  /** Where a compiled control comes from. */
  lemma {:induction false} CompiledFrom(steps: seq<Step>, c: S.Control)
    requires c in CompileSteps(steps)
    ensures exists i, j | 0 <= i < |steps| && 0 <= j < |steps[i].fields| :: c == Compile(i, steps[i].fields[j])
  {
    var n := |steps| - 1;
    if c in CompileStep(n, steps[n]) {
      var j :| 0 <= j < |steps[n].fields| && c == CompileStep(n, steps[n])[j];
      assert c == Compile(n, steps[n].fields[j]);
    } else {
      CompiledFrom(steps[..n], c);
      var i, j :| 0 <= i < n && 0 <= j < |steps[..n][i].fields| && c == Compile(i, steps[..n][i].fields[j]);
      assert c == Compile(i, steps[i].fields[j]);
    }
  }

  /** And every field of every step is compiled. */
  lemma {:induction false} EveryFieldCompiled(steps: seq<Step>, i: nat, j: nat)
    requires i < |steps| && j < |steps[i].fields|
    ensures Compile(i, steps[i].fields[j]) in CompileSteps(steps)
    decreases |steps|
  {
    var n := |steps| - 1;
    if i == n {
      assert CompileStep(n, steps[n])[j] == Compile(i, steps[i].fields[j]);
    } else {
      EveryFieldCompiled(steps[..n], i, j);
      assert steps[..n][i] == steps[i];
    }
  }

  /** What every compiled control carries over, and what it adds; the CV is one required artifact at the end. */
  lemma ResolutionsCarry(m: Manifest, c: S.Control)
    ensures var last := |Resolutions(m)| - 1;
            && 0 <= last && Resolutions(m)[..last] == CompileSteps(m.steps)
            && var cv := Resolutions(m)[last];
               && cv.required && cv.field == "document.cv" && cv.mode == S.Artifact && cv.artifactRef == m.cvRef
               && cv.confidence == S.HighConfidence && !cv.explicitUserFact && cv.provenanceRef == cv.policyRef == ""
    ensures c in CompileSteps(m.steps) ==>
              && c.confidence == S.HighConfidence && c.explicitUserFact && !c.grounded && c.artifactRef == ""
              && exists i, j | 0 <= i < |m.steps| && 0 <= j < |m.steps[i].fields| ::
                   var f := m.steps[i].fields[j];
                   && c.key == ControlKey(i, TextOf(f.key)) && (c.required <==> f.required == Bool(true))
                   && c.provenanceRef == TextOf(f.provenance) && c.policyRef == TextOf(f.policy)
  {
    if c in CompileSteps(m.steps) {
      CompiledFrom(m.steps, c);
      var i, j :| 0 <= i < |m.steps| && 0 <= j < |m.steps[i].fields| && c == Compile(i, m.steps[i].fields[j]);
      assert c.key == ControlKey(i, TextOf(m.steps[i].fields[j].key));
    }
  }

  /** The rules agree on a field, however it is compiled. */
  ghost predicate Refines(accepts: Field -> bool) {
    forall step: nat, f | accepts(f) ::
      f.key.Str? && (S.FieldProblem(Compile(step, f), S.APPROVED).None? <==> !UncoveredPrivacy(f))
  }

  lemma LoaderRefines(facts: map<string, Fact>, numeral: string -> bool)
    requires FactsOk(facts)
    ensures Refines(FieldCheck(facts, numeral))
  {
    forall step: nat, f | FieldCheck(facts, numeral)(f)
      ensures f.key.Str? && (S.FieldProblem(Compile(step, f), S.APPROVED).None? <==> !UncoveredPrivacy(f))
    {
      AcceptedFieldIsClear(step, f, facts, numeral);
    }
  }

  lemma ManifestIsClear(m: Manifest, accepts: Field -> bool)
    requires Refines(accepts) && ManifestOk(m.steps, accepts) && IsOpaque(m.cvRef, 512)
    ensures S.ControlBlockers(Resolutions(m), S.APPROVED) == [] <==> NoUncoveredPrivacy(m.steps)
  {
    var controls := Resolutions(m);
    S.ControlBlockersEmptyIff(controls, S.APPROVED);
    CvIsClear(m.cvRef);
    if NoUncoveredPrivacy(m.steps) {
      forall c | c in controls
        ensures S.FieldProblem(c, S.APPROVED).None?
      {
        if c in CompileSteps(m.steps) {
          CompiledFrom(m.steps, c);
          var i, j :| 0 <= i < |m.steps| && 0 <= j < |m.steps[i].fields| && c == Compile(i, m.steps[i].fields[j]);
          assert m.steps[i] in m.steps && m.steps[i].fields[j] in m.steps[i].fields;
          assert StepOk(m.steps[i], accepts) && accepts(m.steps[i].fields[j]);
        }
      }
    } else {
      var s, f :| s in m.steps && f in s.fields && UncoveredPrivacy(f);
      var i :| 0 <= i < |m.steps| && m.steps[i] == s;
      var j :| 0 <= j < |s.fields| && s.fields[j] == f;
      EveryFieldCompiled(m.steps, i, j);
      assert StepOk(s, accepts) && accepts(f);
      assert Compile(i, f) in controls;
    }
  }

  /** What the loader accepts: the facts file entry by entry, and the manifest against the facts collected from it. */
  predicate Loaded(m: Manifest, entries: seq<FactEntry>, isProfile: string -> bool, numeral: string -> bool) {
    && EntriesOk(entries, FactCheck(isProfile))
    && ManifestOk(m.steps, FieldCheck(Collected(entries), numeral))
    && IsOpaque(m.cvRef, 512)
  }

  /**
   A loaded manifest compiles to controls without any per-field blocker exactly
   when every required privacy box is covered by an approved policy.
   */
  lemma AcceptedManifestIsClear(m: Manifest, entries: seq<FactEntry>, isProfile: string -> bool, numeral: string -> bool)
    requires Loaded(m, entries, isProfile, numeral)
    ensures S.ControlBlockers(Resolutions(m), S.APPROVED) == [] <==> NoUncoveredPrivacy(m.steps)
  {
    CollectedFactsOk(entries, isProfile);
    LoaderRefines(Collected(entries), numeral);
    ManifestIsClear(m, FieldCheck(Collected(entries), numeral));
  }

  lemma CvIsClear(cvRef: string)
    requires IsOpaque(cvRef, 512)
    ensures S.FieldProblem(CvControl(cvRef), S.APPROVED).None?
  {
    PresentIfFirstKept(cvRef);
    PresentIfFirstKept("document.cv");
    assert "document.cv"[1] == 'o' && "demographic."[1] == 'e';
    assert S.IsDemographic("document.cv") ==> |"document.cv"| >= 12;
    assert "document.cv"[0] == 'd' && "work.authorization"[0] == 'w' && "technical.captcha"[0] == 't';
    assert "consent.privacy_acknowledgement"[0] == 'c' && "application.motivation_text"[0] == 'a';
  }

  lemma ControlKeysDiffer(i: nat, x: string, k: nat, y: string)
    ensures ControlKey(i, x) == ControlKey(k, y) <==> i == k && x == y
    ensures ControlKey(i, x) != "approved-cv"
  {
    var a, b := ControlKey(i, x), ControlKey(k, y);
    assert a[0] == 's' && "approved-cv"[0] == 'a';
    if a == b {
      assert a == "step" + (Decimal(i) + ":" + x) && b == "step" + (Decimal(k) + ":" + y);
      assert Decimal(i) + ":" + x == a[4..] && Decimal(k) + ":" + y == b[4..];
      DecimalIsDigits(i);
      DecimalIsDigits(k);
      FirstPartDetermined(Decimal(i), x, Decimal(k), y);
      DecimalIsInjective(i, k);
    }
  }

  /** The compiled control keys never collide, not even with the key of the CV. */
  lemma CompiledKeysAreDistinct(m: Manifest, accepts: Field -> bool, i: nat, j: nat, k: nat, l: nat)
    requires Refines(accepts) && ManifestOk(m.steps, accepts)
    requires i < |m.steps| && j < |m.steps[i].fields| && k < |m.steps| && l < |m.steps[k].fields|
    ensures Compile(i, m.steps[i].fields[j]).key == Compile(k, m.steps[k].fields[l]).key <==> i == k && j == l
    ensures Compile(i, m.steps[i].fields[j]).key != CvControl(m.cvRef).key
  {
    var f, g := m.steps[i].fields[j], m.steps[k].fields[l];
    assert m.steps[i] in m.steps && f in m.steps[i].fields && accepts(f);
    assert m.steps[k] in m.steps && g in m.steps[k].fields && accepts(g);
    var c, d := Compile(i, f), Compile(k, g);
    ControlKeysDiffer(i, TextOf(f.key), k, TextOf(g.key));
    if c.key == d.key {
      KeyPosition(m.steps, i, j);
      KeyPosition(m.steps, k, l);
    }
  }

  /** The position of a field's key among all keys of the manifest. */
  lemma {:induction false} KeyPosition(steps: seq<Step>, i: nat, j: nat)
    requires i < |steps| && j < |steps[i].fields|
    ensures |AllKeys(steps[..i])| + j < |AllKeys(steps)|
    ensures AllKeys(steps)[|AllKeys(steps[..i])| + j] == steps[i].fields[j].key
  {
    AllKeysContain(steps, i);
    var part := AllKeys(steps[..i]) + StepKeys(steps[i]);
    assert part[|AllKeys(steps[..i])| + j] == StepKeys(steps[i])[j];
  }

  /**
   End to end: for an accepted manifest with covered privacy boxes, the request
   that the driver builds is eligible exactly when its identity, drift and rate
   conditions hold; the controls never stand in the way.
   */
  lemma AcceptedManifestEligibility(m: Manifest, entries: seq<FactEntry>, isProfile: string -> bool,
                                    numeral: string -> bool, r: S.Request)
    requires Loaded(m, entries, isProfile, numeral) && r.controls == Resolutions(m)
    ensures S.AllBlockers(r, S.APPROVED) == [] <==> S.RequestClear(r, S.APPROVED) && NoUncoveredPrivacy(m.steps)
  {
    AcceptedManifestIsClear(m, entries, isProfile, numeral);
    S.EligibleIff(r, S.APPROVED);
    S.ControlBlockersEmptyIff(r.controls, S.APPROVED);
  }

  // ----- What acceptance means, entry by entry

  predicate ExplicitDecision(s: string) {
    "user_decision:" < s || "user-decision:" < s || "candidate_verified:" < s || "candidate-verified:" < s
  }

  /** An entry of the facts file that was verified, approved, is at most thirty days old, and has a source fit for its subject. */
  predicate Stands(e: FactEntry) {
    && e.canonical.Str? && e.verified == Bool(true) && e.autoFill == Bool(true)
    && e.age.Some? && 0 <= e.age.value <= 2_592_000
    && e.source.Str? && IsOpaque(e.source.s, 512)
    && ("work." <= e.canonical.s || "compensation." <= e.canonical.s || "consent." <= e.canonical.s
        || e.canonical.s == "employment.current_status" || e.canonical.s == "employment.notice_period" ==>
          ExplicitDecision(Lower(e.source.s)))
  }

  lemma ExplicitSourceIff(s: string)
    ensures IsExplicitSource(s) <==> ExplicitDecision(Lower(s))
  {
    var t := Lower(s);
    assert |t| == |s|;
    forall kind | kind in {"user_decision:", "user-decision:", "candidate_verified:", "candidate-verified:"}
      ensures StartsWith(t, kind) && |s| > |kind| <==> kind < t
    {
      StartsWithIsPrefix(t, kind);
    }
  }

  /** An entry is accepted exactly when it stands, is for a known field, and has a value of a permitted shape. */
  lemma FactEntryOkIff(e: FactEntry, isProfile: string -> bool)
    ensures FactEntryOk(e, isProfile) <==>
            && Stands(e) && (IsAllowed(e.canonical.s) || isProfile(e.canonical.s))
            && (match e.value
                case Str(text) => |text| <= 10000 && '\0' !in text
                case Bool(_) => true
                case Int(_) => true
                case Float(_) => true
                case _ => false)
            && (isProfile(e.canonical.s) ==> e.value.Str? && !IsBlank(e.value.s))
  {
    if e.canonical.Str? && e.source.Str? {
      StartsWithIsPrefix(e.canonical.s, "work.");
      StartsWithIsPrefix(e.canonical.s, "compensation.");
      StartsWithIsPrefix(e.canonical.s, "consent.");
      ExplicitSourceIff(e.source.s);
    }
  }

  /** The whole file: every entry, and no canonical field twice. */
  lemma EntriesOkIff(entries: seq<FactEntry>, isProfile: string -> bool)
    ensures EntriesOk(entries, FactCheck(isProfile)) <==>
            && (forall e | e in entries :: FactEntryOk(e, isProfile))
            && forall i, j | 0 <= i < |entries| && 0 <= j < |entries| && entries[i].canonical == entries[j].canonical :: i == j
  {
    assert forall e :: FactCheck(isProfile)(e) == FactEntryOk(e, isProfile);
    if forall e | e in entries :: FactEntryOk(e, isProfile) {
      forall i, j | 0 <= i < |entries| && 0 <= j < |entries|
        ensures TextOf(entries[i].canonical) == TextOf(entries[j].canonical) <==> entries[i].canonical == entries[j].canonical
      {
        assert FactEntryOk(entries[i], isProfile) && FactEntryOk(entries[j], isProfile);
      }
    }
  }

  lemma StartsWithIsPrefix(s: string, prefix: string)
    ensures StartsWith(s, prefix) <==> prefix <= s
  {
  }

  /**
   Nothing that was not verified reaches the form: every field of a loaded
   manifest has the value and the source of an entry of the facts file for its
   own canonical field, and that entry was verified, approved, recent, and, where
   the subject demands it, an explicit decision of the candidate.
   */
  lemma LoadedValuesAreVerified(m: Manifest, entries: seq<FactEntry>, isProfile: string -> bool,
                                numeral: string -> bool, step: Step, f: Field)
    requires Loaded(m, entries, isProfile, numeral) && step in m.steps && f in step.fields
    ensures exists e :: e in entries && e.canonical == f.canonical && e.value == f.value && e.source == f.provenance
                        && Stands(e)
  {
    var facts := Collected(entries);
    assert StepOk(step, FieldCheck(facts, numeral)) && FieldCheck(facts, numeral)(f);
    assert FieldOk(f, facts, numeral);
    CollectedHasOrigin(entries);
    var c := f.canonical.s;
    assert CollectedFrom(entries, c, facts[c]);
    var i :| 0 <= i < |entries| && TextOf(entries[i].canonical) == c
             && facts[c] == Fact(entries[i].value, TextOf(entries[i].source));
    assert entries[i] in entries && FactCheck(isProfile)(entries[i]);
    FactEntryOkIff(entries[i], isProfile);
  }

  /** Which subject a canonical field belongs to, for the mode rules. */
  datatype Subject = Demographic | WorkRight | Salary | Privacy | Marketing | Ordinary

  function SubjectOf(c: string): Subject {
    if "demographic." <= c then Demographic
    else if "work." <= c then WorkRight
    else if c in {"compensation.salary_expectation", "compensation.expected_salary", "compensation.expected_annual_gross",
                  "compensation.expected_salary_range"} then Salary
    else if c == "consent.privacy" || c == "consent.privacy_acknowledgement" then Privacy
    else if c == "consent.marketing" || c == "consent.marketing_opt_in" then Marketing
    else Ordinary
  }

  predicate Unanswered(value: Json) {
    value == Str("") || value == Bool(false)
  }

  /** The combinations that each subject allows, told by the subject instead of by the rule. */
  predicate ModeAllowed(c: string, kind: string, required: bool, mode: string, value: Json, policy: Json) {
    var named := policy.Str? && IsOpaque(policy.s, 512);
    && (named || policy == Absent || policy == Null)
    && match SubjectOf(c)
       case Demographic =>
         if required then
           && mode == "Approved Neutral Choice" && value == Str("Prefer not to say") && named
           && policy.s in {"SUBMIT1-A6", "SUBMIT-1-A6"}
         else mode == "Blank Optional" && Unanswered(value) && named
       case WorkRight => mode == "Verified Fact"
       case Salary => mode == "Approved Policy" && named
       case Privacy =>
         && kind == "checkbox" && value.Bool?
         && (if value.b then mode == "Approved Policy" && named && IsPrivacyPolicy(policy.s)
             else mode == "Verified Fact" || (mode == "Approved Policy" && named) || (mode == "Blank Optional" && !required))
       case Marketing =>
         kind == "checkbox" && !required && value == Bool(false) && (mode == "Default No" || mode == "Blank Optional")
       case Ordinary =>
         || mode == "Verified Fact" || (mode == "Approved Policy" && named)
         || (mode == "Blank Optional" && !required && Unanswered(value))
  }

  lemma SubjectsAreApart(c: string)
    ensures "demographic." <= c ==> c[0] == 'd'
    ensures "work." <= c ==> c[0] == 'w'
    ensures c in SALARY_FIELDS || IsPrivacy(c) || IsMarketing(c) ==> c != "" && c[0] == 'c'
    ensures c in SALARY_FIELDS ==> c[2] == 'm'
    ensures IsPrivacy(c) || IsMarketing(c) ==> c[2] == 'n'
    ensures IsPrivacy(c) ==> c[8] == 'p'
    ensures IsMarketing(c) ==> c[8] == 'm'
  {
    assert "demographic."[0] == 'd' && "work."[0] == 'w';
  }

  lemma ModesAreApart(mode: string)
    requires mode in MODES
    ensures mode == "Verified Fact" <==> mode[0] == 'V'
    ensures mode == "Default No" <==> mode[0] == 'D'
    ensures mode == "Blank Optional" <==> mode[0] == 'B'
    ensures mode == "Approved Policy" <==> mode[0] == 'A' && mode[9] == 'P'
    ensures mode == "Approved Neutral Choice" <==> mode[0] == 'A' && mode[9] == 'N'
  {
  }

  /** The mode rules, rule by rule as the loader applies them, allow exactly these combinations. */
  lemma ModeOkIff(c: string, kind: string, required: bool, mode: string, value: Json, policy: Json)
    requires mode in MODES
    ensures ModeOk(c, kind, required, mode, value, policy) <==> ModeAllowed(c, kind, required, mode, value, policy)
  {
    SubjectsAreApart(c);
    ModesAreApart(mode);
    StartsWithIsPrefix(c, "demographic.");
    StartsWithIsPrefix(c, "work.");
    NeutralPoliciesAreNamed();
  }

  lemma NeutralPoliciesAreNamed()
    ensures IsOpaque("SUBMIT1-A6", 512) && IsOpaque("SUBMIT-1-A6", 512)
  {
  }

  /** Everything a field needs to be accepted, beyond its fact. */
  lemma FieldOkIff(f: Field, facts: map<string, Fact>, numeral: string -> bool)
    ensures FieldOk(f, facts, numeral) <==>
            && f.key.Str? && IsOpaque(f.key.s, 128)
            && f.selector.Str? && !IsBlank(f.selector.s) && |f.selector.s| <= 512 && '\0' !in f.selector.s
            && f.caption.Str? && !IsBlank(f.caption.s) && |f.caption.s| <= 1024 && '\0' !in f.caption.s
            && f.kind.Str? && f.kind.s in KINDS && f.required.Bool? && f.mode.Str? && f.mode.s in MODES
            && f.canonical.Str? && IsAllowed(f.canonical.s) && f.canonical.s in facts
            && f.value == facts[f.canonical.s].value && f.provenance == Str(facts[f.canonical.s].sourceRef)
            && (f.value.Str? ==> |f.value.s| <= 10000 && '\0' !in f.value.s && (f.required.b ==> !IsBlank(f.value.s)))
            && (match f.value
                case Bool(_) => f.kind.s == "checkbox"
                case Str(text) =>
                  f.kind.s != "checkbox" && (f.kind.s == "number" && text != "" ==> numeral(text))
                case Int(_) => f.kind.s == "number"
                case Float(_) => f.kind.s == "number"
                case _ => false)
            && ModeAllowed(f.canonical.s, f.kind.s, f.required.b, f.mode.s, f.value, f.policy)
  {
    if f.mode.Str? && f.mode.s in MODES && f.canonical.Str? && f.kind.Str? && f.required.Bool? {
      ModeOkIff(f.canonical.s, f.kind.s, f.required.b, f.mode.s, f.value, f.policy);
    }
    assert "checkbox" != "number" by {
      assert "checkbox"[0] == 'c' && "number"[0] == 'n';
    }
  }

  /** A policy reference for privacy: the user, a name, the word, and a date of eight digits. */
  lemma PrivacyPolicyIff(s: string)
    ensures IsPrivacyPolicy(s) <==>
            exists name: string, date: string :: s == "USER-" + name + "-PRIVACY-" + date && PolicyParts(name, date)
  {
    if IsPrivacyPolicy(s) {
      var name, date := s[5..|s| - 17], s[|s| - 8..];
      assert s == s[..5] + name + s[|s| - 17..|s| - 8] + date;
      forall i | 0 <= i < |name|
        ensures IsUpper(name[i]) || IsDigit(name[i]) || (i > 0 && name[i] in "_-")
      {
        assert name[i] == s[5 + i];
      }
      forall i | 0 <= i < 8
        ensures IsDigit(date[i])
      {
        assert date[i] == s[|s| - 8 + i];
      }
      assert PolicyParts(name, date);
    }
    forall name: string, date: string | s == "USER-" + name + "-PRIVACY-" + date && PolicyParts(name, date)
      ensures IsPrivacyPolicy(s)
    {
      PartsMakePolicy(s, name, date);
    }
  }

  predicate PolicyParts(name: string, date: string) {
    && |date| == 8 && (forall i | 0 <= i < 8 :: IsDigit(date[i]))
    && |name| > 0 && (forall i | 0 <= i < |name| :: IsUpper(name[i]) || IsDigit(name[i]) || (i > 0 && name[i] in "_-"))
  }

  lemma PartsMakePolicy(s: string, name: string, date: string)
    requires s == "USER-" + name + "-PRIVACY-" + date && PolicyParts(name, date)
    ensures IsPrivacyPolicy(s)
  {
    assert |s| == 5 + |name| + 9 + 8;
    assert s[..5] == "USER-" && s[|s| - 17..|s| - 8] == "-PRIVACY-";
    assert forall i | 5 <= i < |s| - 17 :: s[i] == name[i - 5];
    assert forall i | |s| - 8 <= i < |s| :: s[i] == date[i - (|s| - 8)];
  }

  // ----- Manifests, position by position

  /** Fields at different places, over all steps, have different keys. */
  ghost predicate FieldKeysApart(steps: seq<Step>) {
    forall i, j, k, l | 0 <= i < |steps| && 0 <= j < |steps[i].fields| && 0 <= k < |steps| && 0 <= l < |steps[k].fields|
                        && (i, j) != (k, l) ::
      steps[i].fields[j].key != steps[k].fields[l].key
  }

  /** The one upload is in one step, and no field has its key. */
  ghost predicate OneUpload(steps: seq<Step>) {
    exists u :: 0 <= u < |steps| && steps[u].upload.Some? && (forall i | 0 <= i < |steps| && i != u :: steps[i].upload == None)
                && forall i, j | 0 <= i < |steps| && 0 <= j < |steps[i].fields| ::
                     steps[i].fields[j].key != steps[u].upload.value.key
  }

  /** Within a step no two fields share a selector, and none shares that of the upload. */
  ghost predicate SelectorsApart(s: Step) {
    && (forall i, j | 0 <= i < j < |s.fields| :: s.fields[i].selector != s.fields[j].selector)
    && (s.upload.Some? ==> forall i | 0 <= i < |s.fields| :: s.fields[i].selector != s.upload.value.selector)
  }

  lemma SelectorsApartIff(s: Step)
    ensures Distinct(StepSelectors(s)) <==> SelectorsApart(s)
  {
    var all, n := StepSelectors(s), |s.fields|;
    assert forall i | 0 <= i < n :: all[i] == s.fields[i].selector;
    if Distinct(all) {
      forall i, j | 0 <= i < j < n
        ensures s.fields[i].selector != s.fields[j].selector
      {
        assert all[i] != all[j];
      }
      forall i | 0 <= i < n && s.upload.Some?
        ensures s.fields[i].selector != s.upload.value.selector
      {
        assert all[i] != all[n];
      }
    }
  }

  /** Where the key at a place of the list of all keys comes from. */
  datatype Place = FieldPlace(step: nat, field: nat) | UploadPlace(step: nat)

  ghost predicate IsPlace(steps: seq<Step>, p: Place) {
    && p.step < |steps|
    && (p.FieldPlace? ==> p.field < |steps[p.step].fields|) && (p.UploadPlace? ==> steps[p.step].upload.Some?)
  }

  ghost function KeyAt(steps: seq<Step>, p: Place): Json
    requires IsPlace(steps, p)
  {
    if p.FieldPlace? then steps[p.step].fields[p.field].key else steps[p.step].upload.value.key
  }

  ghost function IndexOf(steps: seq<Step>, p: Place): nat
    requires IsPlace(steps, p)
  {
    |AllKeys(steps[..p.step])| + if p.FieldPlace? then p.field else |steps[p.step].fields|
  }

  lemma {:induction false} PlaceHasIndex(steps: seq<Step>, p: Place)
    requires IsPlace(steps, p)
    ensures IndexOf(steps, p) < |AllKeys(steps)| && AllKeys(steps)[IndexOf(steps, p)] == KeyAt(steps, p)
  {
    AllKeysContain(steps, p.step);
    var part := AllKeys(steps[..p.step]) + StepKeys(steps[p.step]);
    assert part[IndexOf(steps, p)] == StepKeys(steps[p.step])[IndexOf(steps, p) - |AllKeys(steps[..p.step])|];
  }

  lemma {:induction false} IndexHasPlace(steps: seq<Step>, x: nat) returns (p: Place)
    requires x < |AllKeys(steps)|
    ensures IsPlace(steps, p) && IndexOf(steps, p) == x && KeyAt(steps, p) == AllKeys(steps)[x]
  {
    var n := |steps| - 1;
    if x < |AllKeys(steps[..n])| {
      p := IndexHasPlace(steps[..n], x);
      assert steps[..n][..p.step] == steps[..p.step] && steps[..n][p.step] == steps[p.step];
    } else {
      var y := x - |AllKeys(steps[..n])|;
      p := if y < |steps[n].fields| then FieldPlace(n, y) else UploadPlace(n);
      assert StepKeys(steps[n])[y] == KeyAt(steps, p);
    }
  }

  lemma {:induction false} KeysGrow(steps: seq<Step>, i: nat, k: nat)
    requires i < k <= |steps|
    ensures |AllKeys(steps[..i])| + |StepKeys(steps[i])| <= |AllKeys(steps[..k])|
  {
    AllKeysContain(steps[..k], i);
    assert steps[..k][..i] == steps[..i] && steps[..k][i] == steps[i];
  }

  lemma {:induction false} DifferentPlacesDiffer(steps: seq<Step>, p: Place, q: Place)
    requires IsPlace(steps, p) && IsPlace(steps, q) && p != q
    ensures IndexOf(steps, p) != IndexOf(steps, q)
  {
    if p.step < q.step {
      KeysGrow(steps, p.step, q.step);
    } else if q.step < p.step {
      KeysGrow(steps, q.step, p.step);
    }
  }

  ghost predicate PlacesDiffer(steps: seq<Step>) {
    forall p, q :: IsPlace(steps, p) && IsPlace(steps, q) && p != q ==> KeyAt(steps, p) != KeyAt(steps, q)
  }

  /** Keys are distinct in the list exactly when different places have different keys. */
  lemma {:induction false} KeysApartIff(steps: seq<Step>)
    ensures Distinct(AllKeys(steps)) <==> PlacesDiffer(steps)
  {
    var all := AllKeys(steps);
    if Distinct(all) {
      forall p, q | IsPlace(steps, p) && IsPlace(steps, q) && p != q
        ensures KeyAt(steps, p) != KeyAt(steps, q)
      {
        PlaceHasIndex(steps, p);
        PlaceHasIndex(steps, q);
        DifferentPlacesDiffer(steps, p, q);
        var x, y := IndexOf(steps, p), IndexOf(steps, q);
        assert x < y ==> all[x] != all[y];
        assert y < x ==> all[y] != all[x];
      }
    }
    if PlacesDiffer(steps) {
      forall x, y | 0 <= x < y < |all|
        ensures all[x] != all[y]
      {
        var p := IndexHasPlace(steps, x);
        var q := IndexHasPlace(steps, y);
      }
    }
  }

  lemma {:induction false} UploadCountIsOne(steps: seq<Step>)
    ensures UploadCount(steps) == |set i | 0 <= i < |steps| && steps[i].upload.Some?|
  {
    if steps != [] {
      var n := |steps| - 1;
      UploadCountIsOne(steps[..n]);
      var before := set i | 0 <= i < n && steps[..n][i].upload.Some?;
      assert (set i | 0 <= i < |steps| && steps[i].upload.Some?) == before + if steps[n].upload.Some? then {n} else {};
    }
  }

  lemma SingleMember(s: set<int>, u: int)
    requires |s| == 1 && u in s
    ensures s == {u}
  {
    assert |s - {u}| == 0;
    assert s == {u} + (s - {u});
  }

  /**
   The loading loop, position by position: a handful of steps, each with fields
   that are accepted and selectors of their own, one upload in all, and no key
   used twice anywhere.
   */
  lemma {:induction false} ManifestOkIff(steps: seq<Step>, accepts: Field -> bool)
    ensures ManifestOk(steps, accepts) <==>
            && 1 <= |steps| <= 5
            && (forall s | s in steps ::
                  && 1 <= |s.fields| <= 100 && (forall f | f in s.fields :: accepts(f)) && SelectorsApart(s)
                  && (s.upload.Some? ==>
                        var u := s.upload.value;
                        && u.key.Str? && IsOpaque(u.key.s, 128)
                        && u.selector.Str? && !IsBlank(u.selector.s) && |u.selector.s| <= 512 && '\0' !in u.selector.s))
            && FieldKeysApart(steps) && OneUpload(steps)
  {
    forall s | s in steps
      ensures Distinct(StepSelectors(s)) <==> SelectorsApart(s)
    {
      SelectorsApartIff(s);
    }
    KeysApartIff(steps);
    UploadCountIsOne(steps);
    var uploads := set i | 0 <= i < |steps| && steps[i].upload.Some?;
    if UploadCount(steps) == 1 && Distinct(AllKeys(steps)) {
      UploadsApart(steps, uploads);
    }
    if OneUpload(steps) && FieldKeysApart(steps) {
      PlacesApart(steps, uploads);
    }
  }

  lemma FieldsDiffer(steps: seq<Step>)
    requires PlacesDiffer(steps)
    ensures FieldKeysApart(steps)
  {
    forall i, j, k, l | 0 <= i < |steps| && 0 <= j < |steps[i].fields| && 0 <= k < |steps| && 0 <= l < |steps[k].fields|
                        && (i, j) != (k, l)
      ensures steps[i].fields[j].key != steps[k].fields[l].key
    {
      assert KeyAt(steps, FieldPlace(i, j)) != KeyAt(steps, FieldPlace(k, l));
    }
  }

  lemma UploadDiffers(steps: seq<Step>, u: nat)
    requires PlacesDiffer(steps) && u < |steps| && steps[u].upload.Some?
    requires forall i | 0 <= i < |steps| && i != u :: steps[i].upload == None
    ensures OneUpload(steps)
  {
    forall i, j | 0 <= i < |steps| && 0 <= j < |steps[i].fields|
      ensures steps[i].fields[j].key != steps[u].upload.value.key
    {
      assert KeyAt(steps, FieldPlace(i, j)) != KeyAt(steps, UploadPlace(u));
    }
  }

  lemma UploadsApart(steps: seq<Step>, uploads: set<int>)
    requires uploads == (set i | 0 <= i < |steps| && steps[i].upload.Some?) && |uploads| == 1 && PlacesDiffer(steps)
    ensures OneUpload(steps) && FieldKeysApart(steps)
  {
    var u :| u in uploads;
    SingleMember(uploads, u);
    forall i | 0 <= i < |steps| && i != u
      ensures steps[i].upload == None
    {
      assert i !in uploads;
    }
    UploadDiffers(steps, u);
    FieldsDiffer(steps);
  }

  lemma {:induction false} PlacesApart(steps: seq<Step>, uploads: set<int>)
    requires uploads == (set i | 0 <= i < |steps| && steps[i].upload.Some?)
    requires OneUpload(steps) && FieldKeysApart(steps)
    ensures |uploads| == 1 && PlacesDiffer(steps)
  {
    var u :| 0 <= u < |steps| && steps[u].upload.Some? && (forall i | 0 <= i < |steps| && i != u :: steps[i].upload == None)
             && forall i, j | 0 <= i < |steps| && 0 <= j < |steps[i].fields| ::
                  steps[i].fields[j].key != steps[u].upload.value.key;
    assert uploads == {u};
    forall p, q | IsPlace(steps, p) && IsPlace(steps, q) && p != q
      ensures KeyAt(steps, p) != KeyAt(steps, q)
    {
      if p.UploadPlace? || q.UploadPlace? {
        assert p.UploadPlace? ==> p.step == u;
        assert q.UploadPlace? ==> q.step == u;
      } else {
        assert (p.step, p.field) != (q.step, q.field);
      }
    }
  }
}
