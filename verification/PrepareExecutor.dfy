/**
 The prepare-only executor: it fills the planned fields and attaches the planned
 files through a fenced session, re-examining the page around every action, and
 proposes a result. The page answers as it likes: a `Turn` is one such script.
 */
module PrepareExecutor {
  import opened Wrappers
  import opened FencedSession
  import Identity
  import SubmitPolicy

  // ----- What is planned

  datatype Ownership = AutoSafe | DynamicAi | OtherOwner

  datatype FieldPlan = FieldPlan(planKey: string, controlKey: string, canonicalField: string, controlType: string,
                                 value: string, ownership: Ownership, resolved: bool, highConfidence: bool,
                                 reviewRequired: bool)

  datatype Asset = Asset(fileName: string, mimeType: string, size: int, sha256: string)

  datatype UploadPlan = UploadPlan(planKey: string, controlKey: string, canonicalField: string, artifactType: string,
                                   artifactVersion: string, asset: Asset)

  predicate IsSafeField(f: string) {
    f in {"candidate.first_name", "candidate.last_name", "candidate.email", "candidate.phone",
          "candidate.linkedin_url", "employment.notice_period", "application.referral"}
  }

  predicate IsDynamicField(f: string) {
    f == "application.motivation_text"
  }

  predicate IsForbiddenField(f: string) {
    || f in {"application.final_submit", "experience.relevant_years", "employment.earliest_start_date"}
    || "work." <= f || "compensation." <= f || "consent." <= f || "demographic." <= f || "document." <= f
    || "technical." <= f
  }

  predicate IsSafeControlType(t: string) {
    t in {"text", "email", "tel", "url", "textarea", "select"}
  }

  /** `field_plan_blocker` finds nothing. */
  predicate Writable(p: FieldPlan) {
    var field := Identity.Strip(p.canonicalField);
    && !IsForbiddenField(field) && IsSafeControlType(Identity.Lower(Identity.Strip(p.controlType)))
    && p.highConfidence && !p.reviewRequired && p.resolved
    && match p.ownership
       case AutoSafe => IsSafeField(field)
       case DynamicAi => IsDynamicField(field)
       case OtherOwner => false
  }

  // ----- What is found on the page

  /** The last control with this key, as a dictionary built from the controls would hold. */
  function Named(controls: seq<PageControl>, key: string): Option<PageControl> {
    if controls == [] then None
    else
      var c := controls[|controls| - 1];
      if c.key == key then Some(c) else Named(controls[..|controls| - 1], key)
  }

  predicate HasLocator(c: PageControl) {
    c.elementId != "" || c.name != ""
  }

  predicate FieldFits(controls: seq<PageControl>, p: FieldPlan) {
    var found := Named(controls, p.controlKey);
    && found.Some?
    && var c := found.value;
       && !c.disabled && c.visible && Identity.Lower(c.kind) == Identity.Lower(p.controlType)
       && (c.maxLength > 0 ==> |p.value| <= c.maxLength)
       && (c.kind == "select" ==> p.value in c.options)
       && HasLocator(c)
  }

  predicate FileFits(controls: seq<PageControl>, p: UploadPlan, acceptAllows: (string, Asset) -> bool) {
    var found := Named(controls, p.controlKey);
    && found.Some?
    && var c := found.value;
       c.kind == "file" && acceptAllows(c.accept, p.asset) && !c.disabled && c.visible && HasLocator(c)
  }

  predicate RequiredResolved(controls: seq<PageControl>, resolutions: seq<SubmitPolicy.Control>) {
    forall c | c in controls && c.required :: exists r | r in resolutions :: r.key == c.key
  }

  // ----- The page's script

  /** One examination: the look before it and the look it takes. */
  datatype Visit = Visit(before: Look, look: Look)

  /** One browser call outside the examinations. */
  datatype Call = Call(events: seq<NetworkEvent>, raises: bool)

  datatype Readback = Readback(fileName: string, size: int, mimeType: string, sha256: string)

  datatype FieldTurn = FieldTurn(start: Visit, reading: Call, current: string, beforeWrite: Visit, writing: Call,
                                 afterWrite: Visit, checking: Call, readback: string, valid: bool)

  datatype FileTurn = FileTurn(start: Visit, reading: Call, current: Readback, beforeWrite: Visit, intact: bool,
                               again: Visit, writing: Call, afterWrite: Visit, checking: Call, readback: Readback,
                               valid: bool, appended: Option<bool>)

  // ----- Results

  datatype FieldStatus = WrittenVerified | AlreadyMatched | FieldMismatch

  datatype FieldResult = FieldResult(planKey: string, controlKey: string, canonicalField: string, valueHash: string,
                                     readbackHash: string, status: FieldStatus, mutated: bool)

  datatype FileStatus = UploadedVerified | AlreadyAttached | FileMismatch

  datatype FileResult = FileResult(planKey: string, controlKey: string, canonicalField: string, artifactType: string,
                                   artifactVersion: string, contentHash: string, expected: Asset, readback: Readback,
                                   status: FileStatus, executed: bool, appended: bool)

  /** `_readback_matches`. */
  predicate Matches(r: Readback, a: Asset) {
    && r.fileName == a.fileName && r.size == a.size && r.mimeType == a.mimeType && r.sha256 != ""
    && Identity.Lower(r.sha256) == Identity.Lower(a.sha256)
  }

  function Mutations(results: seq<FieldResult>): nat {
    if results == [] then 0
    else Mutations(results[..|results| - 1]) + if results[|results| - 1].mutated then 1 else 0
  }

  function Executions(results: seq<FileResult>): nat {
    if results == [] then 0
    else Executions(results[..|results| - 1]) + if results[|results| - 1].executed then 1 else 0
  }

  /** A field result says what the page showed for its plan: matched untouched, or written and read back. */
  predicate FieldTold(digest: string -> string, p: FieldPlan, t: FieldTurn, r: FieldResult) {
    && r.planKey == p.planKey && r.controlKey == p.controlKey && r.canonicalField == p.canonicalField
    && r.valueHash == digest(p.value)
    && match r.status
       case AlreadyMatched => t.current == p.value && r.readbackHash == digest(t.current) && !r.mutated
       case WrittenVerified => t.current != p.value && t.readback == p.value && t.valid
                               && r.readbackHash == digest(t.readback) && r.mutated
       case FieldMismatch => t.current != p.value && (t.readback != p.value || !t.valid)
                             && r.readbackHash == digest(t.readback) && r.mutated
  }

  predicate FileTold(p: UploadPlan, t: FileTurn, r: FileResult) {
    && r.planKey == p.planKey && r.controlKey == p.controlKey && r.canonicalField == p.canonicalField
    && r.artifactType == p.artifactType && r.artifactVersion == p.artifactVersion
    && r.contentHash == p.asset.sha256 && r.expected == p.asset && r.readback == t.readback
    && r.executed == !Matches(t.current, p.asset)
    && match r.status
       case AlreadyAttached => !r.executed && Matches(t.readback, p.asset) && t.valid && t.appended == Some(r.appended)
       case UploadedVerified => r.executed && Matches(t.readback, p.asset) && t.valid && t.appended == Some(r.appended)
       case FileMismatch => !(Matches(t.readback, p.asset) && t.valid) && !r.appended
  }

  ghost predicate FieldsTold(digest: string -> string, plans: seq<FieldPlan>, page: nat -> FieldTurn,
                             results: seq<FieldResult>)
  {
    && |results| <= |plans|
    && (forall i | 0 <= i < |results| :: FieldTold(digest, plans[i], page(i), results[i]))
    && forall i | 0 <= i < |results| - 1 :: results[i].status != FieldMismatch
  }

  ghost predicate FilesTold(plans: seq<UploadPlan>, page: nat -> FileTurn, results: seq<FileResult>) {
    && |results| <= |plans|
    && (forall i | 0 <= i < |results| :: FileTold(plans[i], page(i), results[i]))
    && (forall i | 0 <= i < |results| - 1 :: results[i].status != FileMismatch)
  }

  predicate AllVerified(fields: seq<FieldResult>) {
    forall r | r in fields :: r.status != FieldMismatch
  }

  predicate AllAttached(files: seq<FileResult>) {
    forall r | r in files :: r.status != FileMismatch
  }

  lemma {:induction false} FieldAppended(digest: string -> string, plans: seq<FieldPlan>, page: nat -> FieldTurn,
                                         results: seq<FieldResult>, r: FieldResult)
    requires FieldsTold(digest, plans, page, results) && AllVerified(results) && |results| < |plans|
    requires FieldTold(digest, plans[|results|], page(|results|), r)
    ensures FieldsTold(digest, plans, page, results + [r])
    ensures AllVerified(results + [r]) <==> r.status != FieldMismatch
    ensures Mutations(results + [r]) == Mutations(results) + if r.mutated then 1 else 0
  {
    assert (results + [r])[..|results|] == results;
    assert r in results + [r];
  }

  lemma AllAttachedAppends(results: seq<FileResult>, r: FileResult)
    ensures AllAttached(results + [r]) <==> AllAttached(results) && r.status != FileMismatch
  {
    assert r in results + [r];
    assert forall x :: x in results + [r] <==> x in results || x == r;
  }

  lemma {:induction false} FileAppended(plans: seq<UploadPlan>, page: nat -> FileTurn, results: seq<FileResult>,
                                        r: FileResult)
    requires FilesTold(plans, page, results) && AllAttached(results) && |results| < |plans|
    requires FileTold(plans[|results|], page(|results|), r)
    ensures FilesTold(plans, page, results + [r])
    ensures AllAttached(results + [r]) <==> r.status != FileMismatch
    ensures Executions(results + [r]) == Executions(results) + if r.executed then 1 else 0
  {
    var after := results + [r];
    assert after[..|results|] == results;
    assert after[|results|] == r;
    AllAttachedAppends(results, r);
  }

  // ----- What goes well

  /** The session is preparing and nothing was denied. */
  ghost predicate Clear(session: FencedApplicationSession)
    reads session
  {
    session.phase == Preparing && !session.fenceBlocked
  }

  /** While the form is being filled the fence lets nothing through, so a page goes well only if it starts nothing. */
  ghost predicate VisitOk(limits: Limits, startedAt: int, visit: Visit, surface: seq<PageControl>) {
    && Live(limits, startedAt, visit.before) && visit.look.events == [] && !visit.look.fails && visit.look.onTarget
    && ShowsForm(visit.look.shown, surface)
  }

  predicate CallOk(call: Call) {
    call.events == [] && !call.raises
  }

  /** One field goes well: shown as planned, or written between two examinations and read back as planned. */
  ghost predicate FieldDone(limits: Limits, startedAt: int, surface: seq<PageControl>, plan: FieldPlan, turn: FieldTurn) {
    && VisitOk(limits, startedAt, turn.start, surface) && CallOk(turn.reading)
    && (turn.current == plan.value
        || (&& VisitOk(limits, startedAt, turn.beforeWrite, surface) && CallOk(turn.writing)
            && VisitOk(limits, startedAt, turn.afterWrite, surface) && CallOk(turn.checking)
            && turn.readback == plan.value && turn.valid))
  }

  /** One file goes well: attached already, or attached intact between three examinations; read back, and recorded. */
  ghost predicate FileDone(limits: Limits, startedAt: int, surface: seq<PageControl>, plan: UploadPlan, turn: FileTurn) {
    && VisitOk(limits, startedAt, turn.start, surface) && CallOk(turn.reading)
    && (Matches(turn.current, plan.asset)
        || (&& VisitOk(limits, startedAt, turn.beforeWrite, surface) && turn.intact
            && VisitOk(limits, startedAt, turn.again, surface) && CallOk(turn.writing)
            && VisitOk(limits, startedAt, turn.afterWrite, surface)))
    && CallOk(turn.checking) && Matches(turn.readback, plan.asset) && turn.valid && turn.appended != None
  }

  /** The first `n` fields go well. */
  ghost predicate FieldsDone(limits: Limits, startedAt: int, surface: seq<PageControl>, plans: seq<FieldPlan>,
                             page: nat -> FieldTurn, n: nat)
    requires n <= |plans|
  {
    forall i | 0 <= i < n :: FieldDone(limits, startedAt, surface, plans[i], page(i))
  }

  ghost predicate FilesDone(limits: Limits, startedAt: int, surface: seq<PageControl>, plans: seq<UploadPlan>,
                            page: nat -> FileTurn, n: nat)
    requires n <= |plans|
  {
    forall i | 0 <= i < n :: FileDone(limits, startedAt, surface, plans[i], page(i))
  }

  lemma FieldsDoneStep(limits: Limits, startedAt: int, surface: seq<PageControl>, plans: seq<FieldPlan>,
                       page: nat -> FieldTurn, n: nat)
    requires n < |plans|
    ensures FieldsDone(limits, startedAt, surface, plans, page, n + 1) <==>
            FieldsDone(limits, startedAt, surface, plans, page, n) && FieldDone(limits, startedAt, surface, plans[n], page(n))
    ensures FieldsDone(limits, startedAt, surface, plans, page, |plans|) ==>
              FieldsDone(limits, startedAt, surface, plans, page, n + 1)
  {
  }

  lemma FilesDoneStep(limits: Limits, startedAt: int, surface: seq<PageControl>, plans: seq<UploadPlan>,
                      page: nat -> FileTurn, n: nat)
    requires n < |plans|
    ensures FilesDone(limits, startedAt, surface, plans, page, n + 1) <==>
            FilesDone(limits, startedAt, surface, plans, page, n) && FileDone(limits, startedAt, surface, plans[n], page(n))
    ensures FilesDone(limits, startedAt, surface, plans, page, |plans|) ==>
              FilesDone(limits, startedAt, surface, plans, page, n + 1)
  {
  }

  lemma NothingPermitted(f: Fence, events: seq<NetworkEvent>)
    requires f.preparing
    ensures AllPermitted(f, events) <==> events == []
  {
    if events != [] {
      assert !Permits(f, events[0]) && events[0] in events;
    }
  }

  // ----- The loops

  /** What the steps below keep of the session whatever the page does. */
  twostate predicate Continues(session: FencedApplicationSession)
    reads session
  {
    && session.Valid() && session.fencePreparing && old(session.history) <= session.history
    && session.prepareAttempted == old(session.prepareAttempted) && session.startedAt == old(session.startedAt)
    && (session.phase == Preparing ==> session.observation == old(session.observation))
    && (session.phase == old(session.phase) || session.phase == Expired || session.phase == Blocked)
    && old(session.writeAttempts) <= session.writeAttempts && old(session.uploadAttempts) <= session.uploadAttempts
  }

  /** Examine the page while it is being filled. */
  method ExamineFilling(session: FencedApplicationSession, surface: seq<PageControl>, visit: Visit) returns (ok: bool)
    requires session.Valid() && session.fencePreparing
    modifies session`phase, session`observation, session`fenceBlocked, session`lateRequests, session`history
    ensures session.Valid() && old(session.history) <= session.history
    ensures session.phase == old(session.phase) || session.phase == Expired || session.phase == Blocked
    ensures session.phase == Preparing ==> session.observation == old(session.observation)
    ensures ok <==> old(Clear(session)) && VisitOk(session.limits, session.startedAt, visit, surface)
    ensures ok ==> Clear(session)
  {
    NothingPermitted(session.View().fence, visit.look.events);
    ok := session.CheckSurface(visit.before, visit.look, surface);
  }

  /** A browser call while the form is being filled. */
  method CallFilling(session: FencedApplicationSession, call: Call) returns (ok: bool)
    requires session.Valid() && session.fencePreparing
    modifies session`fenceBlocked, session`lateRequests, session`history
    ensures session.Valid() && old(session.history) <= session.history
    ensures ok <==> !call.raises
    ensures ok && Clear(session) <==> old(Clear(session)) && CallOk(call)
  {
    NothingPermitted(session.View().fence, call.events);
    session.Pump(call.events);
    ok := !call.raises;
  }

  /** Examine the page, then ask it something. */
  method ExamineAndCall(session: FencedApplicationSession, surface: seq<PageControl>, visit: Visit, call: Call)
    returns (ok: bool)
    requires session.Valid() && session.fencePreparing
    modifies session`phase, session`observation, session`fenceBlocked, session`lateRequests, session`history
    ensures session.Valid() && old(session.history) <= session.history
    ensures session.phase == old(session.phase) || session.phase == Expired || session.phase == Blocked
    ensures session.phase == Preparing ==> session.observation == old(session.observation)
    ensures ok ==> session.phase == Preparing && !call.raises
    ensures ok && Clear(session) <==>
            old(Clear(session)) && VisitOk(session.limits, session.startedAt, visit, surface) && CallOk(call)
  {
    ok := ExamineFilling(session, surface, visit);
    if ok {
      ok := CallFilling(session, call);
    }
  }

  /** Examine the page, count the attempt, then write. */
  method AttemptWrite(session: FencedApplicationSession, surface: seq<PageControl>, visit: Visit, call: Call)
    returns (ok: bool)
    requires session.Valid() && session.fencePreparing
    modifies session
    ensures Continues(session) && session.uploadAttempts == old(session.uploadAttempts)
    ensures session.writeAttempts <= old(session.writeAttempts) + 1
    ensures ok ==> session.writeAttempts == old(session.writeAttempts) + 1
    ensures ok && Clear(session) <==>
            old(Clear(session)) && VisitOk(session.limits, session.startedAt, visit, surface) && CallOk(call)
  {
    ok := ExamineFilling(session, surface, visit);
    if ok {
      session.CountOneWrite();
      ok := CallFilling(session, call);
    }
  }

  /** Examine the page, count the attempt, then attach. */
  method AttemptUpload(session: FencedApplicationSession, surface: seq<PageControl>, visit: Visit, call: Call)
    returns (ok: bool)
    requires session.Valid() && session.fencePreparing
    modifies session
    ensures Continues(session) && session.writeAttempts == old(session.writeAttempts)
    ensures session.uploadAttempts <= old(session.uploadAttempts) + 1
    ensures ok ==> session.uploadAttempts == old(session.uploadAttempts) + 1
    ensures ok && Clear(session) <==>
            old(Clear(session)) && VisitOk(session.limits, session.startedAt, visit, surface) && CallOk(call)
  {
    ok := ExamineFilling(session, surface, visit);
    if ok {
      session.CountOneUpload();
      ok := CallFilling(session, call);
    }
  }

  /** One planned field; no result is the executor's exception. */
  method WriteOneField(session: FencedApplicationSession, surface: seq<PageControl>, digest: string -> string,
                       plan: FieldPlan, turn: FieldTurn)
    returns (r: Option<FieldResult>)
    requires session.Valid() && session.fencePreparing
    modifies session
    ensures Continues(session) && session.uploadAttempts == old(session.uploadAttempts)
    ensures r.Some? ==> FieldTold(digest, plan, turn, r.value) && session.phase == Preparing
    ensures r.Some? ==> session.writeAttempts == old(session.writeAttempts) + if r.value.mutated then 1 else 0
    ensures r.None? ==> session.writeAttempts <= old(session.writeAttempts) + 1
    ensures r.Some? && r.value.status != FieldMismatch && Clear(session) <==>
            old(Clear(session)) && FieldDone(session.limits, session.startedAt, surface, plan, turn)
  {
    var ok := ExamineAndCall(session, surface, turn.start, turn.reading);
    if !ok {
      return None;
    }
    if turn.current == plan.value {
      return Some(FieldResult(plan.planKey, plan.controlKey, plan.canonicalField, digest(plan.value),
                              digest(turn.current), AlreadyMatched, false));
    }
    ok := AttemptWrite(session, surface, turn.beforeWrite, turn.writing);
    if ok {
      ok := ExamineAndCall(session, surface, turn.afterWrite, turn.checking);
    }
    if !ok {
      return None;
    }
    var status := if turn.readback == plan.value && turn.valid then WrittenVerified else FieldMismatch;
    return Some(FieldResult(plan.planKey, plan.controlKey, plan.canonicalField, digest(plan.value),
                            digest(turn.readback), status, true));
  }

  /** One more field on top of the results so far. */
  method WriteNext(session: FencedApplicationSession, surface: seq<PageControl>, digest: string -> string,
                   plans: seq<FieldPlan>, page: nat -> FieldTurn, results: seq<FieldResult>, ghost began: bool)
    returns (ok: bool, longer: seq<FieldResult>)
    requires session.Valid() && session.fencePreparing && session.phase == Preparing && |results| < |plans|
    requires FieldsTold(digest, plans, page, results) && AllVerified(results)
    requires Clear(session) <==>
             began && FieldsDone(session.limits, session.startedAt, surface, plans, page, |results|)
    modifies session
    ensures Continues(session) && session.uploadAttempts == old(session.uploadAttempts)
    ensures FieldsTold(digest, plans, page, longer)
    ensures ok ==> |longer| == |results| + 1 && AllVerified(longer) && session.phase == Preparing
    ensures ok && Clear(session) <==>
            began && FieldsDone(session.limits, session.startedAt, surface, plans, page, |results| + 1)
    ensures var attempts := session.writeAttempts - old(session.writeAttempts);
            var mutations := Mutations(longer) - Mutations(results);
            mutations <= attempts <= mutations + if ok then 0 else 1
  {
    FieldsDoneStep(session.limits, session.startedAt, surface, plans, page, |results|);
    var r := WriteOneField(session, surface, digest, plans[|results|], page(|results|));
    if r.None? {
      return false, results;
    }
    FieldAppended(digest, plans, page, results, r.value);
    longer := results + [r.value];
    ok := r.value.status != FieldMismatch;
  }

  /**
   The field loop. When it finishes, every plan has its result, in order, and
   the session counted exactly the mutations; when it stops, at most the one
   attempt that produced no result is counted besides.
   */
  method WriteFields(session: FencedApplicationSession, surface: seq<PageControl>, digest: string -> string,
                     plans: seq<FieldPlan>, page: nat -> FieldTurn)
    returns (ok: bool, results: seq<FieldResult>)
    requires session.Valid() && session.fencePreparing && session.phase == Preparing
    modifies session
    ensures Continues(session) && session.uploadAttempts == old(session.uploadAttempts)
    ensures FieldsTold(digest, plans, page, results)
    ensures ok ==> |results| == |plans| && AllVerified(results) && session.phase == Preparing
    ensures ok && Clear(session) <==>
            old(Clear(session)) && FieldsDone(session.limits, session.startedAt, surface, plans, page, |plans|)
    ensures ok ==> session.writeAttempts == old(session.writeAttempts) + Mutations(results)
    ensures Mutations(results) <= session.writeAttempts - old(session.writeAttempts) <= Mutations(results) + 1
  {
    results := [];
    ghost var at := session.startedAt;
    for i := 0 to |plans|
      invariant Continues(session) && session.phase == Preparing
      invariant session.uploadAttempts == old(session.uploadAttempts)
      invariant |results| == i && AllVerified(results) && FieldsTold(digest, plans, page, results)
      invariant session.writeAttempts == old(session.writeAttempts) + Mutations(results)
      invariant Clear(session) <==>
                old(Clear(session)) && FieldsDone(session.limits, at, surface, plans, page, i)
    {
      FieldsDoneStep(session.limits, at, surface, plans, page, i);
      ok, results := WriteNext(session, surface, digest, plans, page, results, old(Clear(session)));
      if !ok {
        return;
      }
    }
    ok := true;
  }

  /** A missing file: the bytes are checked once more, between two examinations, before they are attached. */
  method AttachMissing(session: FencedApplicationSession, surface: seq<PageControl>, turn: FileTurn) returns (ok: bool)
    requires session.Valid() && session.fencePreparing
    modifies session
    ensures Continues(session) && session.writeAttempts == old(session.writeAttempts)
    ensures session.uploadAttempts <= old(session.uploadAttempts) + 1
    ensures ok ==> session.uploadAttempts == old(session.uploadAttempts) + 1 && session.phase == Preparing
    ensures ok <==>
            && old(Clear(session)) && VisitOk(session.limits, session.startedAt, turn.beforeWrite, surface) && turn.intact
            && VisitOk(session.limits, session.startedAt, turn.again, surface) && CallOk(turn.writing)
            && VisitOk(session.limits, session.startedAt, turn.afterWrite, surface)
    ensures ok ==> Clear(session)
  {
    ok := ExamineFilling(session, surface, turn.beforeWrite);
    if !ok || !turn.intact {
      return false;
    }
    ok := AttemptUpload(session, surface, turn.again, turn.writing);
    if ok {
      ok := ExamineFilling(session, surface, turn.afterWrite);
    }
  }

  /** One planned file; no result is the executor's exception. */
  method AttachOneFile(session: FencedApplicationSession, surface: seq<PageControl>, plan: UploadPlan, turn: FileTurn)
    returns (r: Option<FileResult>)
    requires session.Valid() && session.fencePreparing
    modifies session
    ensures Continues(session) && session.writeAttempts == old(session.writeAttempts)
    ensures r.Some? ==> FileTold(plan, turn, r.value) && session.phase == Preparing
    ensures r.Some? ==> session.uploadAttempts == old(session.uploadAttempts) + if r.value.executed then 1 else 0
    ensures r.None? ==> session.uploadAttempts <= old(session.uploadAttempts) + 1
    ensures r.Some? && r.value.status != FileMismatch && Clear(session) <==>
            old(Clear(session)) && FileDone(session.limits, session.startedAt, surface, plan, turn)
  {
    var ok := ExamineAndCall(session, surface, turn.start, turn.reading);
    if !ok {
      return None;
    }
    var executed := !Matches(turn.current, plan.asset);
    if executed {
      ok := AttachMissing(session, surface, turn);
      if !ok {
        return None;
      }
    }
    ok := CallFilling(session, turn.checking);
    r := if ok then FileOutcome(plan, turn, executed) else None;
  }

  /** The result for a file, once it has been read back; none when the artifact cannot be recorded. */
  function FileOutcome(plan: UploadPlan, turn: FileTurn, executed: bool): (r: Option<FileResult>)
    ensures r.Some? && executed == !Matches(turn.current, plan.asset) ==>
              FileTold(plan, turn, r.value) && r.value.executed == executed
  {
    if !Matches(turn.readback, plan.asset) || !turn.valid then
      Some(Attached(plan, turn.readback, FileMismatch, executed, false))
    else if turn.appended.None? then None
    else Some(Attached(plan, turn.readback, if executed then UploadedVerified else AlreadyAttached, executed,
                       turn.appended.value))
  }

  function Attached(plan: UploadPlan, readback: Readback, status: FileStatus, executed: bool, appended: bool): FileResult {
    FileResult(plan.planKey, plan.controlKey, plan.canonicalField, plan.artifactType, plan.artifactVersion,
               plan.asset.sha256, plan.asset, readback, status, executed, appended)
  }

  /** One more file on top of the results so far. */
  method AttachNext(session: FencedApplicationSession, surface: seq<PageControl>, plans: seq<UploadPlan>,
                    page: nat -> FileTurn, results: seq<FileResult>, ghost began: bool)
    returns (ok: bool, longer: seq<FileResult>)
    requires session.Valid() && session.fencePreparing && session.phase == Preparing && |results| < |plans|
    requires FilesTold(plans, page, results) && AllAttached(results)
    requires Clear(session) <==> began && FilesDone(session.limits, session.startedAt, surface, plans, page, |results|)
    modifies session
    ensures Continues(session) && session.writeAttempts == old(session.writeAttempts)
    ensures FilesTold(plans, page, longer)
    ensures ok ==> |longer| == |results| + 1 && AllAttached(longer) && session.phase == Preparing
    ensures ok && Clear(session) <==>
            began && FilesDone(session.limits, session.startedAt, surface, plans, page, |results| + 1)
    ensures var attempts := session.uploadAttempts - old(session.uploadAttempts);
            var executions := Executions(longer) - Executions(results);
            executions <= attempts <= executions + if ok then 0 else 1
  {
    FilesDoneStep(session.limits, session.startedAt, surface, plans, page, |results|);
    var r := AttachOneFile(session, surface, plans[|results|], page(|results|));
    if r.None? {
      return false, results;
    }
    FileAppended(plans, page, results, r.value);
    longer := results + [r.value];
    ok := r.value.status != FileMismatch;
  }

  /** The upload loop, with the same bookkeeping. */
  method AttachFiles(session: FencedApplicationSession, surface: seq<PageControl>, plans: seq<UploadPlan>,
                     page: nat -> FileTurn)
    returns (ok: bool, results: seq<FileResult>)
    requires session.Valid() && session.fencePreparing && session.phase == Preparing
    modifies session
    ensures Continues(session) && session.writeAttempts == old(session.writeAttempts)
    ensures FilesTold(plans, page, results)
    ensures ok ==> |results| == |plans| && AllAttached(results) && session.phase == Preparing
    ensures ok && Clear(session) <==>
            old(Clear(session)) && FilesDone(session.limits, session.startedAt, surface, plans, page, |plans|)
    ensures ok ==> session.uploadAttempts == old(session.uploadAttempts) + Executions(results)
    ensures Executions(results) <= session.uploadAttempts - old(session.uploadAttempts) <= Executions(results) + 1
  {
    results := [];
    ghost var at := session.startedAt;
    for i := 0 to |plans|
      invariant Continues(session) && session.phase == Preparing
      invariant session.writeAttempts == old(session.writeAttempts)
      invariant |results| == i && AllAttached(results) && FilesTold(plans, page, results)
      invariant session.uploadAttempts == old(session.uploadAttempts) + Executions(results)
      invariant Clear(session) <==>
                old(Clear(session)) && FilesDone(session.limits, at, surface, plans, page, i)
    {
      FilesDoneStep(session.limits, at, surface, plans, page, i);
      ok, results := AttachNext(session, surface, plans, page, results, old(Clear(session)));
      if !ok {
        return;
      }
    }
    ok := true;
  }

  // ----- One preparation

  /** A request; `wellFormed` and `assetsVerified` are what its own validation and the asset precheck found. */
  datatype PrepareRequest = PrepareRequest(wellFormed: bool, assetsVerified: bool, executionId: string,
                                           opportunityKey: string, requisitionId: string,
                                           profileVersion: string, applicationUrl: string, expectedForm: string,
                                           fields: seq<FieldPlan>, uploads: seq<UploadPlan>,
                                           resolutions: seq<SubmitPolicy.Control>, trackerCurrent: bool,
                                           existingKeys: set<string>, stage: SubmitPolicy.Stage, submissionsToday: int,
                                           policyVersion: string)

  /** Everything the page does during one preparation, in order. */
  datatype Script = Script(pageUrl: string, tooManySteps: bool, opening: Look, start: Visit, fields: nat -> FieldTurn,
                           files: nat -> FileTurn, closing: Visit, final: Look, probing: Call, formValid: bool,
                           last: Visit)

  /** Library behaviour: the form fingerprint, the accept attribute, the value hash. */
  datatype Library = Library(fingerprint: seq<PageControl> -> string, acceptAllows: (string, Asset) -> bool,
                             digest: string -> string)

  /** `Stopped` stands for the boundary and error states: something was refused or raised. */
  datatype RunState = PreSubmitReady | ValidatorBlocked | SchemaDrift | PlanBlocked | ReadbackFailed | Stopped

  datatype Prepared = Prepared(state: RunState, errorFree: bool, executionId: string, opportunityKey: string,
                               requisitionId: string,
                               requestedUrl: string, finalUrl: string, atsFamily: string, observedForm: string,
                               finalForm: string, requiredObserved: nat, resolvedRequired: nat,
                               fieldResults: seq<FieldResult>, fileResults: seq<FileResult>, writes: nat, uploads: nat,
                               submitObserved: bool, formValid: bool, validation: Option<SubmitPolicy.Validation>,
                               reviewGate: bool)

  const DEFAULT_AUTHORITY := SubmitPolicy.SubmitAuthority(true, false, false, true, false, false, false)

  function RequiredCount(controls: seq<PageControl>): nat {
    if controls == [] then 0
    else RequiredCount(controls[..|controls| - 1]) + if controls[|controls| - 1].required then 1 else 0
  }

  predicate ShowsBoundary(s: Snapshot) {
    s.captcha || s.auth || s.blockers != []
  }

  /** Every required control has a resolution and every planned action its control. */
  predicate PlanFits(lib: Library, request: PrepareRequest, controls: seq<PageControl>) {
    && RequiredResolved(controls, request.resolutions)
    && (forall p | p in request.fields :: FieldFits(controls, p))
    && forall p | p in request.uploads :: FileFits(controls, p, lib.acceptAllows)
  }

  /** Everything that must hold of the page and of the whole plan before the first action. */
  predicate Preflighted(lib: Library, request: PrepareRequest, shown: Snapshot) {
    && !ShowsBoundary(shown)
    && lib.fingerprint(shown.controls) == request.expectedForm
    && (forall p | p in request.fields :: Writable(p))
    && PlanFits(lib, request, shown.controls)
  }

  function FinalUrl(session: FencedApplicationSession, request: PrepareRequest, script: Script): string {
    if session.fixture then request.applicationUrl else script.pageUrl
  }

  /** The SUBMIT-1 request that the executor puts together at the end. */
  function ReviewRequest(request: PrepareRequest, finalUrl: string, finalForm: string, challenge: string)
    : SubmitPolicy.Request
  {
    SubmitPolicy.Request(request.executionId, request.opportunityKey, request.requisitionId, request.profileVersion,
                         finalUrl, finalForm, SubmitPolicy.Match, true, request.trackerCurrent, request.resolutions,
                         request.existingKeys, request.stage, request.submissionsToday, challenge, request.policyVersion)
  }

  function Failed(request: PrepareRequest, state: RunState, finalUrl: string, observedForm: string, finalForm: string,
                  fields: seq<FieldResult>, files: seq<FileResult>, writes: nat, uploads: nat): Prepared
  {
    Prepared(state, false, request.executionId, request.opportunityKey, request.requisitionId, request.applicationUrl,
             finalUrl, "smartrecruiters", observedForm, if finalForm != "" then finalForm else observedForm, 0, 0, fields, files,
             writes, uploads, false, false, None, false)
  }

  /** The page answers at the opening, before the plan is held against it. */
  predicate OpensUp(blocked: bool, script: Script) {
    && !blocked && script.opening.onTarget && !script.tooManySteps && !script.opening.fails
    && !ShowsBoundary(script.opening.shown)
  }

  /** Everything that must hold, of the page and of the plan, for the form to be touched at all. */
  ghost predicate PreflightOk(limits: Limits, s: State, lib: Library, request: PrepareRequest, script: Script) {
    && s.phase == Preparing && OpensUp(s.fence.blocked, script) && AllPermitted(s.fence, script.opening.events)
    && request.assetsVerified && Preflighted(lib, request, script.opening.shown)
    && SurfaceSeen(limits, s, script.start.before, script.start.look, script.opening.shown.controls)
  }

  /** The last check before the filling, and the fence shut. */
  method StartFilling(session: FencedApplicationSession, visit: Visit, controls: seq<PageControl>) returns (ok: bool)
    requires session.Valid()
    modifies session`phase, session`observation, session`fenceBlocked, session`lateRequests, session`fencePreparing,
             session`history
    ensures session.Valid() && old(session.history) <= session.history
    ensures session.phase == old(session.phase) || session.phase == Expired || session.phase == Blocked
    ensures session.phase == Preparing ==> session.observation == old(session.observation)
    ensures ok <==> old(session.phase) == Preparing && !old(session.fenceBlocked)
                    && SurfaceSeen(session.limits, old(session.View()), visit.before, visit.look, controls)
    ensures ok ==> session.fencePreparing && Clear(session)
  {
    ok := session.CheckSurface(visit.before, visit.look, controls);
    if ok {
      session.BeginFillingForm();
    }
  }

  /** The checks before the first action; on success the fence is shut and nothing was touched yet. */
  method Preflight(session: FencedApplicationSession, lib: Library, request: PrepareRequest, script: Script)
    returns (failure: Option<RunState>)
    requires session.Valid()
    modifies session`phase, session`observation, session`fenceBlocked, session`lateRequests, session`fencePreparing,
             session`history
    ensures session.Valid() && old(session.history) <= session.history
    ensures session.phase == old(session.phase) || session.phase == Expired || session.phase == Blocked
    ensures session.phase == Preparing ==> session.observation == old(session.observation)
    ensures failure == None <==> PreflightOk(session.limits, old(session.View()), lib, request, script)
    ensures failure == None ==> session.fencePreparing && Clear(session)
    ensures var planned := (forall p | p in request.fields :: Writable(p)) && request.assetsVerified;
            var opens := OpensUp(old(session.fenceBlocked), script);
            var sameForm := lib.fingerprint(script.opening.shown.controls) == request.expectedForm;
            && (failure == Some(PlanBlocked) <==>
                !planned || (opens && sameForm && !PlanFits(lib, request, script.opening.shown.controls)))
            && (failure == Some(SchemaDrift) <==> planned && opens && !sameForm)
            && (failure != None ==> failure.value in {PlanBlocked, SchemaDrift, Stopped})
  {
    if (exists p | p in request.fields :: !Writable(p)) || !request.assetsVerified {
      return Some(PlanBlocked);
    }
    if session.fenceBlocked || !script.opening.onTarget || script.tooManySteps {
      return Some(Stopped);
    }
    ghost var s := session.View();
    session.Pump(script.opening.events);
    var shown := script.opening.shown;
    if script.opening.fails || ShowsBoundary(shown) {
      return Some(Stopped);
    }
    if lib.fingerprint(shown.controls) != request.expectedForm {
      return Some(SchemaDrift);
    }
    if !PlanFits(lib, request, shown.controls) {
      return Some(PlanBlocked);
    }
    SameFence(session.limits, s, session.View(), script.start, shown.controls);
    var ok := StartFilling(session, script.start, shown.controls);
    failure := if ok then None else Some(Stopped);
  }

  /** What a surface check looks for does not depend on the fence's verdict. */
  lemma SameFence(limits: Limits, s: State, t: State, visit: Visit, controls: seq<PageControl>)
    requires s.startedAt == t.startedAt && s.fence.fixture == t.fence.fixture && s.fence.preparing == t.fence.preparing
    ensures SurfaceSeen(limits, s, visit.before, visit.look, controls)
            <==> SurfaceSeen(limits, t, visit.before, visit.look, controls)
  {
    assert forall e :: Permits(s.fence, e) <==> Permits(t.fence, e);
  }

  /** What the final review found. */
  datatype Review = Review(finalForm: string, requiredObserved: nat, submitObserved: bool, formValid: bool,
                           validation: SubmitPolicy.Validation)

  predicate ReviewReady(v: Review) {
    v.validation.policyEligible && v.formValid && v.submitObserved
  }

  /** The closing examination and the probes go well, on the form as fingerprinted at the opening. */
  ghost predicate ClosesWell(limits: Limits, startedAt: int, lib: Library, script: Script) {
    && VisitOk(limits, startedAt, script.closing, script.opening.shown.controls)
    && CallOk(Call(script.final.events, script.final.fails)) && CallOk(script.probing)
    && lib.fingerprint(script.final.shown.controls) == lib.fingerprint(script.opening.shown.controls)
  }

  /** The examination and the probes before the validation; on success the form is as fingerprinted at the opening. */
  method FinalLook(session: FencedApplicationSession, lib: Library, script: Script) returns (failure: Option<RunState>)
    requires session.Valid() && session.fencePreparing
    modifies session`phase, session`observation, session`fenceBlocked, session`lateRequests, session`history
    ensures session.Valid() && old(session.history) <= session.history
    ensures session.phase == old(session.phase) || session.phase == Expired || session.phase == Blocked
    ensures session.phase == Preparing ==> session.observation == old(session.observation)
    ensures failure == None ==>
              lib.fingerprint(script.final.shown.controls) == lib.fingerprint(script.opening.shown.controls)
    ensures failure == None && Clear(session) <==>
            old(Clear(session)) && ClosesWell(session.limits, session.startedAt, lib, script)
    ensures failure != None ==> failure.value in {SchemaDrift, Stopped}
    ensures failure == Some(SchemaDrift) ==>
              lib.fingerprint(script.final.shown.controls) != lib.fingerprint(script.opening.shown.controls)
  {
    var ok := ExamineAndCall(session, script.opening.shown.controls, script.closing,
                             Call(script.final.events, script.final.fails));
    if !ok {
      return Some(Stopped);
    }
    if lib.fingerprint(script.final.shown.controls) != lib.fingerprint(script.opening.shown.controls) {
      return Some(SchemaDrift);
    }
    ok := CallFilling(session, script.probing);
    failure := if ok then None else Some(Stopped);
  }

  /** The review request for the form as it is at the end. */
  function FinalRequest(lib: Library, request: PrepareRequest, script: Script, finalUrl: string): SubmitPolicy.Request {
    ReviewRequest(request, finalUrl, lib.fingerprint(script.final.shown.controls),
                  if script.final.shown.captcha then "CAPTCHA" else "")
  }

  /** The review goes well: the closing, a validation that is not refused, and one more examination. */
  ghost predicate ReviewsWell(limits: Limits, startedAt: int, lib: Library, request: PrepareRequest,
                              policy: SubmitPolicy.Policy, script: Script, finalUrl: string)
  {
    && ClosesWell(limits, startedAt, lib, script)
    && SubmitPolicy.Validate(FinalRequest(lib, request, script, finalUrl), policy, DEFAULT_AUTHORITY).Ok?
    && VisitOk(limits, startedAt, script.last, script.opening.shown.controls)
  }

  /** The SUBMIT-1 validation of the form as it is; none when it is refused. */
  method ReviewForm(lib: Library, request: PrepareRequest, policy: SubmitPolicy.Policy, script: Script, finalUrl: string)
    returns (v: Option<Review>)
    requires lib.fingerprint(script.final.shown.controls) == lib.fingerprint(script.opening.shown.controls)
    ensures v.Some? <==>
            SubmitPolicy.Validate(FinalRequest(lib, request, script, finalUrl), policy, DEFAULT_AUTHORITY).Ok?
    ensures v.Some? ==> ReviewTold(lib, request, policy, script, finalUrl, v.value)
  {
    var validation := SubmitPolicy.ValidatePreSubmit(FinalRequest(lib, request, script, finalUrl), policy,
                                                     DEFAULT_AUTHORITY);
    v := if validation.Ok? then Some(ReviewOf(lib, script, validation.value)) else None;
  }

  /** The final examination, the SUBMIT-1 validation, and one more examination. */
  method FinalReview(session: FencedApplicationSession, lib: Library, request: PrepareRequest,
                     policy: SubmitPolicy.Policy, script: Script, finalUrl: string)
    returns (v: Result<Review, RunState>)
    requires session.Valid() && session.fencePreparing
    modifies session`phase, session`observation, session`fenceBlocked, session`lateRequests, session`history
    ensures session.Valid() && old(session.history) <= session.history
    ensures session.phase == old(session.phase) || session.phase == Expired || session.phase == Blocked
    ensures session.phase == Preparing ==> session.observation == old(session.observation)
    ensures v.Ok? <==> old(Clear(session))
                       && ReviewsWell(session.limits, session.startedAt, lib, request, policy, script, finalUrl)
    ensures v.Ok? ==> ReviewTold(lib, request, policy, script, finalUrl, v.value) && Clear(session)
    ensures v.Err? ==> v.error in {SchemaDrift, Stopped}
  {
    var failure := FinalLook(session, lib, script);
    if failure.Some? {
      return Err(failure.value);
    }
    var review := ReviewForm(lib, request, policy, script, finalUrl);
    if review.None? {
      return Err(Stopped);
    }
    var ok := ExamineFilling(session, script.opening.shown.controls, script.last);
    v := if ok then Ok(review.value) else Err(Stopped);
  }

  function ReviewOf(lib: Library, script: Script, validation: SubmitPolicy.Validation): Review {
    var shown := script.final.shown;
    Review(lib.fingerprint(shown.controls), RequiredCount(shown.controls), "submit" in shown.actions, script.formValid,
           validation)
  }

  predicate ReviewTold(lib: Library, request: PrepareRequest, policy: SubmitPolicy.Policy, script: Script,
                       finalUrl: string, v: Review)
  {
    var shown := script.final.shown;
    && v.finalForm == lib.fingerprint(shown.controls) == lib.fingerprint(script.opening.shown.controls)
    && v.requiredObserved == RequiredCount(shown.controls)
    && v.submitObserved == ("submit" in shown.actions) && v.formValid == script.formValid
    && SubmitPolicy.Validate(ReviewRequest(request, finalUrl, v.finalForm, if shown.captcha then "CAPTCHA" else ""),
                             policy, DEFAULT_AUTHORITY) == Ok(v.validation)
  }

  /** What a ready proposal rests on. */
  ghost predicate ReadyTold(lib: Library, request: PrepareRequest, policy: SubmitPolicy.Policy, script: Script,
                            r: Prepared)
  {
    Preflighted(lib, request, script.opening.shown) && Performed(lib, request, policy, script, r)
  }

  /** The whole plan was carried out, and the review of the final form is told and ready. */
  ghost predicate Performed(lib: Library, request: PrepareRequest, policy: SubmitPolicy.Policy, script: Script,
                            r: Prepared)
  {
    && |r.fieldResults| == |request.fields| && AllVerified(r.fieldResults) && r.writes == Mutations(r.fieldResults)
    && |r.fileResults| == |request.uploads| && AllAttached(r.fileResults) && r.uploads == Executions(r.fileResults)
    && r.observedForm == r.finalForm == lib.fingerprint(script.opening.shown.controls)
    && r.validation.Some?
    && ReviewTold(lib, request, policy, script, r.finalUrl,
                  Review(r.finalForm, r.requiredObserved, r.submitObserved, r.formValid, r.validation.value))
    && r.validation.value.policyEligible && r.formValid && r.submitObserved && r.reviewGate
    && r.resolvedRequired == r.validation.value.resolvedRequired && r.errorFree
    && r.executionId == request.executionId && r.opportunityKey == request.opportunityKey
    && r.requisitionId == request.requisitionId && r.requestedUrl == request.applicationUrl
    && r.atsFamily == "smartrecruiters"
  }

  /** Every attempt is accounted for, with at most one that left no result, and results tell what the page showed. */
  ghost predicate Booked(lib: Library, request: PrepareRequest, script: Script, fields: seq<FieldResult>,
                         files: seq<FileResult>, writes: nat, uploads: nat)
  {
    && FieldsTold(lib.digest, request.fields, script.fields, fields)
    && FilesTold(request.uploads, script.files, files)
    && Mutations(fields) <= writes && Executions(files) <= uploads
    && writes + uploads <= Mutations(fields) + Executions(files) + 1
    && (uploads > 0 ==> |fields| == |request.fields| && AllVerified(fields))
  }

  /** Both loops went through, and only what they did was attempted. */
  ghost predicate Complete(lib: Library, request: PrepareRequest, script: Script, fields: seq<FieldResult>,
                           files: seq<FileResult>, writes: nat, uploads: nat)
  {
    && Booked(lib, request, script, fields, files, writes, uploads)
    && |fields| == |request.fields| && AllVerified(fields) && |files| == |request.uploads| && AllAttached(files)
    && writes == Mutations(fields) && uploads == Executions(files)
  }

  ghost predicate Accounted(lib: Library, request: PrepareRequest, script: Script, r: Prepared) {
    Booked(lib, request, script, r.fieldResults, r.fileResults, r.writes, r.uploads)
  }

  /** Every planned field and file goes well. */
  ghost predicate FormDone(limits: Limits, startedAt: int, request: PrepareRequest, script: Script) {
    var surface := script.opening.shown.controls;
    && FieldsDone(limits, startedAt, surface, request.fields, script.fields, |request.fields|)
    && FilesDone(limits, startedAt, surface, request.uploads, script.files, |request.uploads|)
  }

  /** The two loops, between the preflight and the final review. */
  method FillForm(session: FencedApplicationSession, lib: Library, request: PrepareRequest, script: Script)
    returns (failure: Option<RunState>, fields: seq<FieldResult>, files: seq<FileResult>)
    requires session.Valid() && session.fencePreparing && session.phase == Preparing
    requires session.writeAttempts == session.uploadAttempts == 0
    modifies session
    ensures Continues(session)
    ensures Booked(lib, request, script, fields, files, session.writeAttempts, session.uploadAttempts)
    ensures failure == None && Clear(session) <==>
            old(Clear(session)) && FormDone(session.limits, session.startedAt, request, script)
    ensures failure == Some(ReadbackFailed) <==> !AllVerified(fields) || !AllAttached(files)
    ensures failure.None? ==>
              Complete(lib, request, script, fields, files, session.writeAttempts, session.uploadAttempts)
    ensures failure.Some? ==> failure.value in {ReadbackFailed, Stopped}
  {
    var surface := script.opening.shown.controls;
    files := [];
    var ok;
    ok, fields := WriteFields(session, surface, lib.digest, request.fields, script.fields);
    if !ok {
      return Some(if AllVerified(fields) then Stopped else ReadbackFailed), fields, files;
    }
    ok, files := AttachFiles(session, surface, request.uploads, script.files);
    if !ok {
      return Some(if AllAttached(files) then Stopped else ReadbackFailed), fields, files;
    }
    failure := None;
  }

  function Proposal(request: PrepareRequest, finalUrl: string, observed: string, v: Review, fields: seq<FieldResult>,
                    files: seq<FileResult>, writes: nat, uploads: nat): Prepared
  {
    Prepared(if ReviewReady(v) then PreSubmitReady else ValidatorBlocked, ReviewReady(v), request.executionId,
             request.opportunityKey, request.requisitionId, request.applicationUrl, finalUrl, "smartrecruiters",
             observed, v.finalForm,
             v.requiredObserved, v.validation.resolvedRequired, fields, files, writes, uploads, v.submitObserved,
             v.formValid, Some(v.validation), true)
  }

  /** A proposal built from complete loops and a told review is accounted for, and ready only on all of it. */
  lemma {:induction false} ProposalPerformed(lib: Library, request: PrepareRequest, policy: SubmitPolicy.Policy,
                                             script: Script, finalUrl: string, v: Review, fields: seq<FieldResult>,
                                             files: seq<FileResult>)
    requires ReviewTold(lib, request, policy, script, finalUrl, v)
    requires Booked(lib, request, script, fields, files, Mutations(fields), Executions(files))
    requires |fields| == |request.fields| && AllVerified(fields) && |files| == |request.uploads| && AllAttached(files)
    ensures var r := Proposal(request, finalUrl, lib.fingerprint(script.opening.shown.controls), v, fields, files,
                              Mutations(fields), Executions(files));
            && Accounted(lib, request, script, r)
            && (r.state == PreSubmitReady ==> Performed(lib, request, policy, script, r))
  {
  }

  /** After a passed preflight such a proposal is everything that ready means. */
  lemma {:induction false} ProposalTold(lib: Library, request: PrepareRequest, policy: SubmitPolicy.Policy,
                                        script: Script, finalUrl: string, v: Review, fields: seq<FieldResult>,
                                        files: seq<FileResult>)
    requires Preflighted(lib, request, script.opening.shown)
    requires ReviewTold(lib, request, policy, script, finalUrl, v)
    requires Booked(lib, request, script, fields, files, Mutations(fields), Executions(files))
    requires |fields| == |request.fields| && AllVerified(fields) && |files| == |request.uploads| && AllAttached(files)
    ensures var r := Proposal(request, finalUrl, lib.fingerprint(script.opening.shown.controls), v, fields, files,
                              Mutations(fields), Executions(files));
            && Accounted(lib, request, script, r)
            && (r.state == PreSubmitReady ==> ReadyTold(lib, request, policy, script, r))
  {
    ProposalPerformed(lib, request, policy, script, finalUrl, v, fields, files);
  }

  /** SUBMIT-1 finds the final form eligible, the browser finds it valid, and it can be submitted. */
  ghost predicate Certifies(lib: Library, request: PrepareRequest, policy: SubmitPolicy.Policy, script: Script,
                            finalUrl: string)
  {
    var v := SubmitPolicy.Validate(FinalRequest(lib, request, script, finalUrl), policy, DEFAULT_AUTHORITY);
    v.Ok? && v.value.policyEligible && script.formValid && "submit" in script.final.shown.actions
  }

  /** The review of a completely filled form, and the result built from it. */
  method ReviewFilled(session: FencedApplicationSession, lib: Library, request: PrepareRequest,
                      policy: SubmitPolicy.Policy, script: Script, finalUrl: string, fields: seq<FieldResult>,
                      files: seq<FileResult>)
    returns (r: Prepared)
    requires session.Valid() && session.fencePreparing
    requires Complete(lib, request, script, fields, files, session.writeAttempts, session.uploadAttempts)
    modifies session`phase, session`observation, session`fenceBlocked, session`lateRequests, session`history
    ensures session.Valid() && old(session.history) <= session.history
    ensures session.phase == old(session.phase) || session.phase == Expired || session.phase == Blocked
    ensures r.writes == session.writeAttempts && r.uploads == session.uploadAttempts
    ensures session.phase == Preparing ==> session.observation == old(session.observation)
    ensures Accounted(lib, request, script, r)
    ensures r.state == PreSubmitReady <==>
            old(Clear(session))
            && ReviewsWell(session.limits, session.startedAt, lib, request, policy, script, finalUrl)
            && Certifies(lib, request, policy, script, finalUrl)
    ensures r.state == PreSubmitReady ==> Performed(lib, request, policy, script, r) && Clear(session)
  {
    var observed := lib.fingerprint(script.opening.shown.controls);
    var review := FinalReview(session, lib, request, policy, script, finalUrl);
    if review.Err? {
      r := Failed(request, review.error, finalUrl, observed, "", fields, files, session.writeAttempts,
                  session.uploadAttempts);
    } else {
      ProposalPerformed(lib, request, policy, script, finalUrl, review.value, fields, files);
      r := Proposal(request, finalUrl, observed, review.value, fields, files, session.writeAttempts,
                    session.uploadAttempts);
    }
  }

  /** A failure before anything was touched. */
  method ReportRefusal(lib: Library, request: PrepareRequest, script: Script, state: RunState, finalUrl: string)
    returns (r: Prepared)
    ensures Accounted(lib, request, script, r) && r.state == state && r.writes == r.uploads == 0
  {
    r := Failed(request, state, finalUrl, "", "", [], [], 0, 0);
  }

  /** A failure after the preflight still tells what was done. */
  method ReportFailure(lib: Library, request: PrepareRequest, script: Script, state: RunState, finalUrl: string,
                       fields: seq<FieldResult>, files: seq<FileResult>, writes: nat, uploads: nat) returns (r: Prepared)
    requires Booked(lib, request, script, fields, files, writes, uploads)
    ensures Accounted(lib, request, script, r) && r.state == state && r.writes == writes && r.uploads == uploads
  {
    r := Failed(request, state, finalUrl, lib.fingerprint(script.opening.shown.controls), "", fields, files, writes,
                uploads);
  }

  /** The part of `_prepare_in_session` that acts, after the preflight. */
  method FillAndReview(session: FencedApplicationSession, lib: Library, request: PrepareRequest,
                       policy: SubmitPolicy.Policy, script: Script, finalUrl: string)
    returns (r: Prepared)
    requires session.Valid() && session.fencePreparing && session.phase == Preparing
    requires session.writeAttempts == session.uploadAttempts == 0
    modifies session
    ensures Continues(session)
    ensures r.writes == session.writeAttempts && r.uploads == session.uploadAttempts
    ensures Accounted(lib, request, script, r)
    ensures r.state == PreSubmitReady <==>
            && old(Clear(session)) && FormDone(session.limits, session.startedAt, request, script)
            && ReviewsWell(session.limits, session.startedAt, lib, request, policy, script, finalUrl)
            && Certifies(lib, request, policy, script, finalUrl)
    ensures r.state == PreSubmitReady ==> Performed(lib, request, policy, script, r) && Clear(session)
  {
    var failure, fields, files := FillForm(session, lib, request, script);
    if failure.Some? {
      r := ReportFailure(lib, request, script, failure.value, finalUrl, fields, files, session.writeAttempts,
                         session.uploadAttempts);
      return;
    }
    r := ReviewFilled(session, lib, request, policy, script, finalUrl, fields, files);
  }

  /** The executor proposes a ready result: every step, from the request's own checks to the last examination, goes well. */
  ghost predicate Proposes(limits: Limits, s: State, lib: Library, request: PrepareRequest, policy: SubmitPolicy.Policy,
                           script: Script)
  {
    var finalUrl := if s.fence.fixture then request.applicationUrl else script.pageUrl;
    && request.wellFormed && policy.Valid() && PreflightOk(limits, s, lib, request, script)
    && FormDone(limits, s.startedAt, request, script)
    && ReviewsWell(limits, s.startedAt, lib, request, policy, script, finalUrl)
    && Certifies(lib, request, policy, script, finalUrl)
  }

  /**
   `_prepare_in_session`; no result is an exception before the page is touched.
   The reported attempts are the session's, nothing is attempted unless the
   whole plan passed the preflight, and ready means everything in `ReadyTold`.
   */
  method PrepareInSession(session: FencedApplicationSession, lib: Library, request: PrepareRequest,
                          policy: SubmitPolicy.Policy, script: Script)
    returns (outcome: Option<Prepared>)
    requires session.Valid() && session.writeAttempts == session.uploadAttempts == 0
    modifies session
    ensures session.Valid() && old(session.history) <= session.history
    ensures session.prepareAttempted == old(session.prepareAttempted)
    ensures session.phase == old(session.phase) || session.phase == Expired || session.phase == Blocked
    ensures outcome.None? ==> session.writeAttempts == session.uploadAttempts == 0
    ensures outcome.Some? ==> outcome.value.writes == session.writeAttempts
                              && outcome.value.uploads == session.uploadAttempts
    ensures outcome.Some? ==> Accounted(lib, request, script, outcome.value)
    ensures session.writeAttempts + session.uploadAttempts > 0 ==> Preflighted(lib, request, script.opening.shown)
    ensures session.startedAt == old(session.startedAt)
    ensures outcome.None? <==> !request.wellFormed || !policy.Valid()
    ensures outcome.Some? && outcome.value.state == PreSubmitReady <==>
            Proposes(session.limits, old(session.View()), lib, request, policy, script)
    ensures outcome.Some? && outcome.value.state == PreSubmitReady ==>
              && ReadyTold(lib, request, policy, script, outcome.value) && Clear(session) && session.fencePreparing
              && session.observation == old(session.observation)
  {
    if !request.wellFormed || !policy.Valid() {
      return None;
    }
    var finalUrl := FinalUrl(session, request, script);
    var failure := Preflight(session, lib, request, script);
    if failure.Some? {
      var refusal := ReportRefusal(lib, request, script, failure.value, finalUrl);
      return Some(refusal);
    }
    var r := FillAndReview(session, lib, request, policy, script, finalUrl);
    outcome := Some(r);
  }

  lemma ConfirmsIff(limits: Limits, s: State, before: Look, look: Look, last: Look)
    ensures s.phase == Preparing && !s.fence.blocked && s.fence.preparing && s.observation.Some? ==>
              (MayConclude(limits, s, before, look, last) <==>
               Confirms(limits, s.startedAt, s.observation.value.shown.controls, before, look, last))
  {
    if s.fence.preparing {
      NothingPermitted(s.fence, look.events);
    }
  }

  lemma SameProposal(limits: Limits, s: State, t: State, lib: Library, request: PrepareRequest,
                     policy: SubmitPolicy.Policy, script: Script)
    requires s.phase == t.phase && s.startedAt == t.startedAt && s.fence == t.fence
    ensures Proposes(limits, s, lib, request, policy, script) <==> Proposes(limits, t, lib, request, policy, script)
  {
  }

  /** The session's own recheck of a proposal, which lets nothing through any more. */
  ghost predicate Confirms(limits: Limits, startedAt: int, reviewed: seq<PageControl>, before: Look, look: Look,
                           last: Look)
  {
    && Live(limits, startedAt, before) && look.events == [] && !look.fails && Live(limits, startedAt, look)
    && ShowsForm(look.shown, reviewed) && Live(limits, startedAt, last)
  }

  /** The executor, and the session's own recheck of a ready proposal. */
  method ProposeAndConclude(session: FencedApplicationSession, lib: Library, request: PrepareRequest,
                            policy: SubmitPolicy.Policy, script: Script, recheckBefore: Look, recheck: Look, last: Look)
    returns (ready: bool, outcome: Option<Prepared>)
    requires session.Valid() && session.phase == Preparing && session.prepareAttempted && session.observation.Some?
    requires session.writeAttempts == session.uploadAttempts == 0
    modifies session
    ensures session.Valid() && old(session.history) < session.history
    ensures session.phase == Ready <==> ready
    ensures ready <==>
            && Proposes(session.limits, old(session.View()), lib, request, policy, script)
            && Confirms(session.limits, old(session.startedAt), old(session.observation).value.shown.controls,
                        recheckBefore, recheck, last)
    ensures ready ==> outcome.Some? && outcome.value.state == PreSubmitReady
                      && ReadyTold(lib, request, policy, script, outcome.value)
                      && session.writeAttempts == outcome.value.writes && session.uploadAttempts == outcome.value.uploads
  {
    outcome := PrepareInSession(session, lib, request, policy, script);
    ConfirmsIff(session.limits, session.View(), recheckBefore, recheck, last);
    ready := session.Conclude(outcome.Some? && outcome.value.state == PreSubmitReady, recheckBefore, recheck, last);
  }

  /**
   `prepare`: the token check, the executor, and the session's own recheck of a
   ready proposal. It is ready exactly when all three go well.
   */
  method Prepare(session: FencedApplicationSession, lib: Library, request: PrepareRequest, policy: SubmitPolicy.Policy,
                 script: Script, urlMatches: bool, reviewed: string, first: Look, before: Look, look: Look,
                 recheckBefore: Look, recheck: Look, last: Look)
    returns (ready: bool, outcome: Option<Prepared>)
    requires session.Valid()
    modifies session
    ensures session.Valid() && old(session.history) < session.history
    ensures ready <==>
            && MayPrepare(session.limits, old(session.View()), urlMatches, reviewed, first, before, look)
            && Proposes(session.limits, old(session.View()).(phase := Preparing), lib, request, policy, script)
            && Confirms(session.limits, old(session.startedAt), old(session.observation).value.shown.controls,
                        recheckBefore, recheck, last)
    ensures ready ==> session.phase == Ready && outcome.Some? && outcome.value.state == PreSubmitReady
                      && ReadyTold(lib, request, policy, script, outcome.value)
                      && session.writeAttempts == outcome.value.writes && session.uploadAttempts == outcome.value.uploads
    ensures session.phase == Ready ==> ready || old(session.phase) == Ready
  {
    outcome, ready := None, false;
    var ok := session.Begin(urlMatches, reviewed, first, before, look);
    if ok {
      SameProposal(session.limits, old(session.View()).(phase := Preparing), session.View(), lib, request, policy, script);
      ready, outcome := ProposeAndConclude(session, lib, request, policy, script, recheckBefore, recheck, last);
    }
  }

  // ----- The rules of the plan, one by one

  /** Which planned fields may be written at all. */
  lemma WritableIff(p: FieldPlan)
    ensures Writable(p) <==>
            var field := Identity.Strip(p.canonicalField);
            && p.highConfidence && p.resolved && !p.reviewRequired
            && Identity.Lower(Identity.Strip(p.controlType)) in {"text", "email", "tel", "url", "textarea", "select"}
            && ((p.ownership == AutoSafe
                 && field in {"candidate.first_name", "candidate.last_name", "candidate.email", "candidate.phone",
                              "candidate.linkedin_url", "employment.notice_period", "application.referral"})
                || (p.ownership == DynamicAi && field == "application.motivation_text"))
  {
    var field := Identity.Strip(p.canonicalField);
    if IsSafeField(field) || IsDynamicField(field) {
      SafeIsNotForbidden(field);
    }
  }

  lemma SafeIsNotForbidden(field: string)
    requires IsSafeField(field) || IsDynamicField(field)
    ensures !IsForbiddenField(field)
  {
    SafeStarts(field);
    NamedOthersDiffer(field);
    PrefixesDiffer(field);
  }

  lemma PrefixesDiffer(field: string)
    requires |field| > 1 && (field[0] == 'c' || field[0] == 'e' || field[0] == 'a') && field[1] != 'o'
    requires field !in {"application.final_submit", "experience.relevant_years", "employment.earliest_start_date"}
    ensures !IsForbiddenField(field)
  {
    assert "work."[0] == 'w' && "compensation."[1] == 'o' && "consent."[1] == 'o' && "demographic."[0] == 'd'
           && "document."[0] == 'd' && "technical."[0] == 't';
  }

  lemma SafeStarts(field: string)
    requires IsSafeField(field) || IsDynamicField(field)
    ensures |field| > 12 && (field[0] == 'c' || field[0] == 'e' || field[0] == 'a') && field[1] != 'o' && field[1] != 'x'
    ensures field[0] == 'a' ==> field[12] == 'm' || field[12] == 'r'
    ensures field[0] == 'e' ==> field[11] == 'n'
  {
  }

  lemma NamedOthersDiffer(field: string)
    requires |field| > 12 && field[1] != 'x' && (field[0] == 'a' ==> field[12] == 'm' || field[12] == 'r')
    requires field[0] == 'e' ==> field[11] == 'n'
    ensures field !in {"application.final_submit", "experience.relevant_years", "employment.earliest_start_date"}
  {
    assert "application.final_submit"[0] == 'a' && "application.final_submit"[12] == 'f';
    assert "experience.relevant_years"[1] == 'x';
    assert "employment.earliest_start_date"[0] == 'e' && "employment.earliest_start_date"[11] == 'e';
  }

  /** The control found under a key is the last one on the page that has it. */
  lemma {:induction false} NamedIff(controls: seq<PageControl>, key: string, i: nat)
    requires i < |controls|
    ensures Named(controls, key) == None ==> controls[i].key != key
    ensures controls[i].key == key && (forall j | i < j < |controls| :: controls[j].key != key) ==>
              Named(controls, key) == Some(controls[i])
    ensures Named(controls, key).Some? ==> Named(controls, key).value in controls && Named(controls, key).value.key == key
  {
    var n := |controls| - 1;
    if i < n {
      NamedIff(controls[..n], key, i);
      assert controls[..n][i] == controls[i];
    } else if controls[n].key != key && n > 0 {
      NamedIff(controls[..n], key, 0);
    }
  }

  /** A plan fits its control: there, usable, of the planned type, roomy enough, with the option, and addressable. */
  lemma {:induction false} FieldFitsIff(controls: seq<PageControl>, p: FieldPlan, c: PageControl)
    requires Named(controls, p.controlKey) == Some(c)
    ensures FieldFits(controls, p) <==>
            && c.visible && !c.disabled && !(c.elementId == "" && c.name == "")
            && Identity.Lower(c.kind) == Identity.Lower(p.controlType)
            && !(0 < c.maxLength < |p.value|) && (c.kind == "select" ==> p.value in c.options)
  {
  }

  lemma {:induction false} FileFitsIff(controls: seq<PageControl>, p: UploadPlan, acceptAllows: (string, Asset) -> bool,
                                       c: PageControl)
    requires Named(controls, p.controlKey) == Some(c)
    ensures FileFits(controls, p, acceptAllows) <==>
            && c.visible && !c.disabled && !(c.elementId == "" && c.name == "")
            && c.kind == "file" && acceptAllows(c.accept, p.asset)
  {
  }

  /** An absent control fits no plan. */
  lemma {:induction false} AbsentDoesNotFit(controls: seq<PageControl>, f: FieldPlan, u: UploadPlan,
                                            acceptAllows: (string, Asset) -> bool)
    ensures Named(controls, f.controlKey) == None ==> !FieldFits(controls, f)
    ensures Named(controls, u.controlKey) == None ==> !FileFits(controls, u, acceptAllows)
  {
  }

  /** The control that a key means: the last on the page that has it. */
  predicate Means(controls: seq<PageControl>, key: string, i: int) {
    0 <= i < |controls| && controls[i].key == key && forall j | i < j < |controls| :: controls[j].key != key
  }

  lemma {:induction false} KeyMeans(controls: seq<PageControl>, key: string) returns (i: nat)
    requires Named(controls, key).Some?
    ensures Means(controls, key, i) && controls[i] == Named(controls, key).value
  {
    i := |controls| - 1;
    if controls[i].key != key {
      i := KeyMeans(controls[..i], key);
    }
  }

  lemma {:induction false} FieldFitsMeans(controls: seq<PageControl>, p: FieldPlan)
    ensures FieldFits(controls, p) <==>
            exists i :: Means(controls, p.controlKey, i) && FieldFits([controls[i]], p)
  {
    if FieldFits(controls, p) {
      var i := KeyMeans(controls, p.controlKey);
      assert FieldFits([controls[i]], p);
    }
    if i :| Means(controls, p.controlKey, i) && FieldFits([controls[i]], p) {
      NamedIff(controls, p.controlKey, i);
    }
  }

  lemma {:induction false} FileFitsMeans(controls: seq<PageControl>, p: UploadPlan, acceptAllows: (string, Asset) -> bool)
    ensures FileFits(controls, p, acceptAllows) <==>
            exists i :: Means(controls, p.controlKey, i) && FileFits([controls[i]], p, acceptAllows)
  {
    if FileFits(controls, p, acceptAllows) {
      var i := KeyMeans(controls, p.controlKey);
      assert FileFits([controls[i]], p, acceptAllows);
    }
    if i :| Means(controls, p.controlKey, i) && FileFits([controls[i]], p, acceptAllows) {
      NamedIff(controls, p.controlKey, i);
    }
  }

  /**
   What the preflight asks of page and plan: no obstacle, the reviewed form, only
   fields that may be written, an answer to every required control, and for every
   plan the control that its key means, fit for it.
   */
  lemma {:induction false} PreflightedIff(lib: Library, request: PrepareRequest, shown: Snapshot)
    ensures Preflighted(lib, request, shown) <==>
            && !shown.captcha && !shown.auth && |shown.blockers| == 0
            && request.expectedForm == lib.fingerprint(shown.controls)
            && (forall p | p in request.fields ::
                  Writable(p) && exists i :: Means(shown.controls, p.controlKey, i) && FieldFits([shown.controls[i]], p))
            && (forall c | c in shown.controls :: c.required ==> exists r :: r in request.resolutions && r.key == c.key)
            && (forall u | u in request.uploads ::
                  exists i :: Means(shown.controls, u.controlKey, i) && FileFits([shown.controls[i]], u, lib.acceptAllows))
  {
    forall p | p in request.fields
      ensures FieldFits(shown.controls, p) <==>
              exists i :: Means(shown.controls, p.controlKey, i) && FieldFits([shown.controls[i]], p)
    {
      FieldFitsMeans(shown.controls, p);
    }
    forall u | u in request.uploads
      ensures FileFits(shown.controls, u, lib.acceptAllows) <==>
              exists i :: Means(shown.controls, u.controlKey, i) && FileFits([shown.controls[i]], u, lib.acceptAllows)
    {
      FileFitsMeans(shown.controls, u, lib.acceptAllows);
    }
  }

  /** A file matches by name, size, type and, in either case, a digest that is given. */
  lemma MatchesIff(r: Readback, a: Asset)
    ensures Matches(r, a) <==>
            && (r.fileName, r.size, r.mimeType) == (a.fileName, a.size, a.mimeType)
            && |r.sha256| > 0 && Identity.Lower(r.sha256) == Identity.Lower(a.sha256)
  {
  }

  // ----- Every plan that fits can be prepared

  function StillAt(now: int, shown: Snapshot): Look {
    Look(now, true, true, false, [], shown)
  }

  const SILENT := Call([], false)

  /** A page that shows the same form throughout, with every planned value and file already in place. */
  function StillScript(request: PrepareRequest, now: int, shown: Snapshot): Script {
    var visit := Visit(StillAt(now, shown), StillAt(now, shown));
    var none := Readback("", 0, "", "");
    Script(request.applicationUrl, false, StillAt(now, shown), visit,
           (i: nat) => FieldTurn(visit, SILENT, if i < |request.fields| then request.fields[i].value else "", visit,
                                 SILENT, visit, SILENT, "", true),
           (i: nat) => var held := if i < |request.uploads| then Held(request.uploads[i].asset) else none;
                       FileTurn(visit, SILENT, held, visit, true, visit, SILENT, visit, SILENT, held, true, Some(true)),
           visit, StillAt(now, shown), SILENT, true, visit)
  }

  function Held(a: Asset): Readback {
    Readback(a.fileName, a.size, a.mimeType, a.sha256)
  }

  lemma StillFormIsDone(limits: Limits, now: int, request: PrepareRequest, shown: Snapshot)
    requires limits.sessionTimeout > 0 && !ShowsBoundary(shown)
    requires forall u | u in request.uploads :: u.asset.sha256 != ""
    ensures FormDone(limits, now, request, StillScript(request, now, shown))
  {
    var script := StillScript(request, now, shown);
    forall i | 0 <= i < |request.uploads|
      ensures FileDone(limits, now, shown.controls, request.uploads[i], script.files(i))
    {
      assert request.uploads[i] in request.uploads;
    }
  }

  /** Whatever plan fits the form and is eligible in the end: on such a page the executor proposes it as ready. */
  lemma EveryFittingPlanIsProposed(limits: Limits, s: State, lib: Library, request: PrepareRequest,
                                   policy: SubmitPolicy.Policy, shown: Snapshot)
    requires s.phase == Preparing && !s.fence.blocked && limits.sessionTimeout > 0
    requires request.wellFormed && request.assetsVerified && policy.Valid()
    requires Preflighted(lib, request, shown) && forall u | u in request.uploads :: u.asset.sha256 != ""
    requires Certifies(lib, request, policy, StillScript(request, s.startedAt, shown), request.applicationUrl)
    ensures Proposes(limits, s, lib, request, policy, StillScript(request, s.startedAt, shown))
  {
    StillFormIsDone(limits, s.startedAt, request, shown);
  }
}
