/**
 The driver of one application as it runs, step by step, over the shared ledger
 and its own network boundary. Each step is also taken in the protocol of
 `SubmissionProtocol`, so everything proved there about arbitrary executions
 holds of what this code does.
 */
module ApplicationRuntime {
  import opened Wrappers
  import B = NetworkBoundary
  import L = SubmissionLedger
  import P = SubmissionProtocol
  import S = SubmitPolicy

  // ----- The reviewed manifest

  datatype Value = TextValue(text: string) | FlagValue(flag: bool) | WholeNumber(number: int)

  datatype Binding = Binding(key: string, required: bool, value: Value)

  /** One page of the form; `upload` is the key of its file control. */
  datatype FormStep = FormStep(url: string, fingerprint: string, bindings: seq<Binding>, upload: Option<string>)

  /** The approved CV, by digest and name. */
  datatype Cv = Cv(sha256: string, filename: string)

  /** The reviewed manifest, as far as the driver compares it with its target and its clock. */
  datatype Manifest = Manifest(steps: seq<FormStep>, reviewedAt: L.Stamp, requisitionId: string, cv: Cv)

  /**
   The clock, and what the vacancy review and the private CV file amount to:
   whether each passes its own checks, and how many bytes the CV has.
   */
  datatype Sources = Sources(now: L.Stamp, postingVerified: bool, cvApproved: bool, cvBytes: nat)

  // ----- What the page does; every browser call may let requests loose and may raise

  datatype Look = Look(raises: bool, requests: seq<B.Request>, url: string, fingerprint: string, challenge: bool,
                       externalSurface: bool, unreviewedPrefill: bool, requiredKeys: set<string>, formValid: bool,
                       submitVisible: bool)

  datatype Answer = Answer(raises: bool, requests: seq<B.Request>, shown: Value)

  datatype Reaction = Reaction(raises: bool, requests: seq<B.Request>)

  /** What `upload` observed. */
  datatype UploadSeen = UploadSeen(sha256: string, size: nat, filename: string, attachment: string, endpoint: string,
                                   visible: bool)

  datatype StepPage = StepPage(first: Look, before: nat -> Look, written: nat -> Answer, after: nat -> Look,
                               uploadRequests: seq<B.Request>, uploadRaises: bool, uploadSeen: UploadSeen, last: Look,
                               reread: nat -> Answer, advancing: Reaction)

  /** `seen` is what `submit_once` found when it did not raise. */
  datatype SubmitPage = SubmitPage(raisesBefore: bool, raisesAfter: bool, requests: seq<B.Request>, seen: P.Observation)

  /** `opening` is the entry page up to the first control. */
  datatype Script = Script(opening: Reaction, page: nat -> StepPage, ready: Look, inspectedAt: int, recheck: Look,
                           rechecked: nat -> Answer, checkedAt: int, submit: SubmitPage)

  /** The clock readings and the faults of the four ledger transactions. */
  datatype Storage = Storage(look: L.Fault, reserve: L.Fault, reserveAt: int, start: L.Fault, startAt: int,
                             confirm: L.Fault, confirmAt: int, acceptedAt: int)

  function ExpectedKeys(step: FormStep): set<string> {
    (set b | b in step.bindings && b.required :: b.key) + match step.upload case Some(key) => {key} case None => {}
  }

  /** `_surface`, but for the writes that the boundary has denied. */
  predicate SurfaceOk(step: FormStep, look: Look) {
    && !look.raises && look.url == step.url && look.fingerprint == step.fingerprint && !look.challenge
    && !look.externalSurface && !look.unreviewedPrefill && look.requiredKeys == ExpectedKeys(step)
  }

  /** A look at the reviewed surface during which the page only reads. */
  ghost predicate LookOk(step: FormStep, look: Look) {
    SurfaceOk(step, look) && B.OnlyReads(look.requests)
  }

  /** The upload was of the approved bytes, and the page acknowledged exactly that. */
  predicate UploadVerified(target: B.Target, cv: Cv, bytes: nat, seen: UploadSeen) {
    && seen.sha256 == cv.sha256 && seen.size == bytes && seen.filename == cv.filename && seen.visible
    && |seen.attachment| == 64 && (forall i | 0 <= i < 64 :: L.IsHexDigit(seen.attachment[i]))
    && seen.endpoint == target.ResumeUploadUrl(seen.filename)
  }

  const REVIEW_AGE := 24 * 3600 * 1_000_000

  /** The checks before the browser is opened. */
  predicate Opens(target: B.Target, m: Manifest, sources: Sources) {
    && sources.now.Utc? && m.reviewedAt.Utc? && 0 <= sources.now.at - m.reviewedAt.at <= REVIEW_AGE
    && m.steps != [] && m.steps[0].url == target.EntryUrl() && m.steps[|m.steps| - 1].url == target.ScreeningUrl()
    && m.requisitionId == target.requisitionId && sources.postingVerified && sources.cvApproved
  }

  predicate ReadsAs(b: Binding, a: Answer) {
    !a.raises && a.shown == b.value
  }

  /**
   A binding showed its value right after it was written, and the surface was as
   reviewed before and after; the page only read.
   */
  ghost predicate WrittenAmidSurface(step: FormStep, page: StepPage, i: nat)
    requires i < |step.bindings|
  {
    && LookOk(step, page.before(i)) && ReadsAs(step.bindings[i], page.written(i))
    && B.OnlyReads(page.written(i).requests) && LookOk(step, page.after(i))
  }

  /** Everything was read back, after all writes of the page, as reviewed. */
  ghost predicate Reread(step: FormStep, answers: nat -> Answer) {
    forall i | 0 <= i < |step.bindings| :: ReadsAs(step.bindings[i], answers(i))
  }

  ghost predicate QuietAnswers(step: FormStep, answers: nat -> Answer) {
    forall i | 0 <= i < |step.bindings| :: B.OnlyReads(answers(i).requests)
  }

  function Uploads(steps: seq<FormStep>): nat {
    if steps == [] then 0
    else Uploads(steps[..|steps| - 1]) + if steps[|steps| - 1].upload.Some? then 1 else 0
  }

  lemma UploadsAppend(steps: seq<FormStep>, i: nat)
    requires i < |steps|
    ensures Uploads(steps[..i + 1]) == Uploads(steps[..i]) + if steps[i].upload.Some? then 1 else 0
  {
    assert steps[..i + 1][..i] == steps[..i];
  }

  lemma {:induction false} UploadsGrow(steps: seq<FormStep>, i: nat)
    requires i <= |steps|
    ensures Uploads(steps[..i]) <= Uploads(steps)
    decreases |steps|
  {
    if i == |steps| {
      assert steps[..i] == steps;
    } else {
      var n := |steps| - 1;
      UploadsGrow(steps[..n], i);
      assert steps[..n][..i] == steps[..i];
    }
  }

  /** What the driver has established of the form before it consumes the intent. */
  ghost predicate Filled(target: B.Target, config: B.Config, m: Manifest, bytes: nat, script: Script) {
    && m.steps != [] && Uploads(m.steps) == 1
    && !script.opening.raises && B.OnlyReads(script.opening.requests)
    && PagesFilled(target, config, m, bytes, script.page, |m.steps|)
    && FinalPageReady(m.steps[|m.steps| - 1], script)
  }

  ghost predicate FinalPageReady(final: FormStep, script: Script) {
    && LookOk(final, script.ready) && script.ready.formValid && script.ready.submitVisible
    && LookOk(final, script.recheck) && Reread(final, script.rechecked)
  }

  ghost predicate PagesFilled(target: B.Target, config: B.Config, m: Manifest, bytes: nat, page: nat -> StepPage, n: nat)
    requires n <= |m.steps|
  {
    forall i | 0 <= i < n :: PageFilled(target, config, m, bytes, m.steps[i], page(i), i + 1 == |m.steps|)
  }

  /** The acting half of a page: the surface as reviewed, every binding written amid it, and the upload, if any. */
  ghost predicate PageWritten(target: B.Target, config: B.Config, m: Manifest, bytes: nat, step: FormStep,
                              page: StepPage)
  {
    && LookOk(step, page.first)
    && (forall i | 0 <= i < |step.bindings| :: WrittenAmidSurface(step, page, i))
    && (step.upload.Some? ==> UploadDone(target, config, m.cv, bytes, page))
  }

  /** The upload came back verified, and the page sent nothing but it. */
  ghost predicate UploadDone(target: B.Target, config: B.Config, cv: Cv, bytes: nat, page: StepPage) {
    && !page.uploadRaises && UploadVerified(target, cv, bytes, page.uploadSeen)
    && B.OnlyPostsTo(config.uploadUrl, page.uploadRequests) && B.Counted(page.uploadRequests) <= 1
  }

  /** The checking half: surface and every binding once more, then on to the next page. */
  ghost predicate PageLeft(step: FormStep, page: StepPage, final: bool) {
    && LookOk(step, page.last) && Reread(step, page.reread) && QuietAnswers(step, page.reread)
    && (final || (!page.advancing.raises && B.OnlyReads(page.advancing.requests)))
  }

  ghost predicate PageFilled(target: B.Target, config: B.Config, m: Manifest, bytes: nat, step: FormStep, page: StepPage,
                             final: bool)
  {
    PageWritten(target, config, m, bytes, step, page) && PageLeft(step, page, final)
  }

  method ReviewAllows(review: S.Request, authority: S.SubmitAuthority) returns (ok: bool)
    ensures ok <==> Allowed(review, authority)
  {
    var validation := S.ValidatePreSubmit(review, S.APPROVED, authority);
    ok := validation.Ok? && validation.value.executionAllowed;
  }

  class SingleApplicationRuntime {
    const ledger: L.SqliteSubmissionLedger
    const boundary: B.OneClickNetworkBoundary
    const target: B.Target
    const job: P.Job
    ghost const me: nat
    ghost var trace: seq<P.Action>
    ghost var state: P.State

    /** `earlier` is what happened to the ledger before; this run has not been launched in it. */
    constructor (ledger: L.SqliteSubmissionLedger, boundary: B.OneClickNetworkBoundary, target: B.Target, job: P.Job,
                 ghost me: nat, ghost earlier: seq<P.Action>)
      ensures this.ledger == ledger && this.boundary == boundary && this.target == target
      ensures this.job == job && this.me == me
      ensures trace == earlier && Traced()
    {
      this.ledger, this.boundary, this.target, this.job, this.me := ledger, boundary, target, job, me;
      trace, state := earlier, P.Execute(ledger.hash, earlier);
    }

    ghost predicate Traced()
      reads this
    {
      state == P.Execute(ledger.hash, trace)
    }

    ghost function Me(): P.Run
      requires me in state.runs
      reads this
    {
      state.runs[me]
    }

    /** The objects are where the protocol state says. */
    ghost predicate Linked()
      reads this, ledger, boundary
    {
      && Traced() && ledger.Valid() && boundary.Valid()
      && boundary.config == job.config && state.row == ledger.row
      && me in state.runs && state.runs[me].job == job && state.runs[me].boundary == boundary.View()
    }

    ghost method Take(a: P.Action)
      requires Traced()
      modifies this
      ensures Traced() && trace == old(trace) + [a] && state == P.Next(ledger.hash, old(state), a)
    {
      trace, state := trace + [a], P.Next(ledger.hash, state, a);
      assert trace[..|trace| - 1] == old(trace);
    }

    /** Preparing, with nothing recorded yet. */
    ghost predicate Preparing()
      reads this, ledger, boundary
    {
      Linked() && Me() == P.Run(job, P.Preparing, false, false, 0, boundary.View()) && Calm(boundary.View())
    }

    /** Nothing was denied so far. */
    ghost predicate Clean()
      reads boundary
    {
      boundary.blockedWriteCount == 0
    }

    /** Where a failed preparation leaves the run: still open, or already ended by a refused phase change. */
    ghost predicate Interrupted()
      reads this, ledger, boundary
    {
      Preparing() || (Linked() && Me().pc == P.Finished(P.Blocked))
    }

    /** The exception handler: a run that has not ended yet ends here. */
    ghost method Fail()
      requires Linked() && Me().pc != P.Crashed
      modifies this
      ensures Linked() && old(trace) <= trace
      ensures Me() == if P.Live(old(Me())) then P.Stopped(old(Me())) else old(Me())
    {
      if P.Live(Me()) {
        Take(P.Raise(me));
      }
    }

    /** Requests that the page issues during a browser call. */
    method Deliver(requests: seq<B.Request>)
      requires Linked() && Me().pc != P.Crashed
      modifies this, boundary
      ensures Linked() && old(trace) <= trace && ledger.row == old(ledger.row)
      ensures Me() == old(Me()).(boundary := boundary.View())
      ensures boundary.View() == B.AfterRequests(boundary.config, old(boundary.View()), requests)
    {
      for i := 0 to |requests|
        invariant Linked() && old(trace) <= trace && ledger.row == old(ledger.row)
        invariant Me() == old(Me()).(boundary := boundary.View())
        invariant boundary.View() == B.AfterRequests(boundary.config, old(boundary.View()), requests[..i])
      {
        assert requests[..i + 1][..i] == requests[..i];
        var allowed := boundary.AllowsRequest(requests[i]);
        Take(P.PageRequest(me, requests[i]));
      }
      assert requests[..|requests|] == requests;
    }

    /** The same outside the two windows: nothing is denied exactly as long as the page only reads. */
    method Browse(requests: seq<B.Request>)
      requires Preparing()
      modifies this, boundary
      ensures Preparing() && old(trace) <= trace && ledger.row == old(ledger.row)
      ensures Clean() <==> old(Clean()) && B.OnlyReads(requests)
      ensures Clean() ==> boundary.View() == old(boundary.View())
    {
      ghost var before := boundary.View();
      Deliver(requests);
      B.DenialsRemain(boundary.config, before, requests);
      if before.blocked == 0 {
        B.ReadPhaseIsQuietIff(boundary.config, before, requests);
      }
    }

    method Inspect(step: FormStep, look: Look) returns (ok: bool)
      requires Preparing()
      modifies this, boundary
      ensures Preparing() && old(trace) <= trace && ledger.row == old(ledger.row)
      ensures ok <==> old(Clean()) && LookOk(step, look)
      ensures ok ==> Clean()
      ensures Clean() ==> boundary.View() == old(boundary.View())
    {
      Browse(look.requests);
      ok := boundary.blockedWriteCount == 0 && SurfaceOk(step, look);
    }

    method ReadBack(b: Binding, answer: Answer) returns (ok: bool)
      requires Preparing()
      modifies this, boundary
      ensures Preparing() && old(trace) <= trace && ledger.row == old(ledger.row)
      ensures ok <==> ReadsAs(b, answer)
      ensures Clean() <==> old(Clean()) && B.OnlyReads(answer.requests)
      ensures Clean() ==> boundary.View() == old(boundary.View())
    {
      Browse(answer.requests);
      ok := ReadsAs(b, answer);
    }

    /** Write one binding, with the surface checked on both sides. */
    method WriteOne(step: FormStep, page: StepPage, i: nat) returns (ok: bool)
      requires Preparing() && Clean() && i < |step.bindings|
      modifies this, boundary
      ensures Preparing() && old(trace) <= trace && ledger.row == old(ledger.row)
      ensures ok <==> WrittenAmidSurface(step, page, i)
      ensures ok ==> Clean()
      ensures Clean() ==> boundary.View() == old(boundary.View())
    {
      ok := Inspect(step, page.before(i));
      if ok {
        ok := ReadBack(step.bindings[i], page.written(i));
      }
      if ok {
        ok := Inspect(step, page.after(i));
      }
    }

    /** Write every binding; the first that fails ends the page. */
    method WriteBindings(step: FormStep, page: StepPage) returns (ok: bool)
      requires Preparing() && Clean()
      modifies this, boundary
      ensures Preparing() && old(trace) <= trace && ledger.row == old(ledger.row)
      ensures ok <==> forall i | 0 <= i < |step.bindings| :: WrittenAmidSurface(step, page, i)
      ensures ok ==> Clean() && boundary.View() == old(boundary.View())
    {
      ok := true;
      for i := 0 to |step.bindings|
        invariant Preparing() && old(trace) <= trace && ledger.row == old(ledger.row)
        invariant ok && Clean() && boundary.View() == old(boundary.View())
        invariant forall k | 0 <= k < i :: WrittenAmidSurface(step, page, k)
      {
        ok := WriteOne(step, page, i);
        if !ok {
          return;
        }
      }
    }

    /** Read every binding of the page again. */
    method RereadBindings(step: FormStep, answers: nat -> Answer) returns (ok: bool)
      requires Preparing()
      modifies this, boundary
      ensures Preparing() && old(trace) <= trace && ledger.row == old(ledger.row)
      ensures ok <==> Reread(step, answers)
      ensures ok ==> (Clean() <==> old(Clean()) && QuietAnswers(step, answers))
      ensures Clean() ==> boundary.View() == old(boundary.View())
    {
      ok := true;
      for i := 0 to |step.bindings|
        invariant Preparing() && old(trace) <= trace && ledger.row == old(ledger.row)
        invariant ok <==> forall k | 0 <= k < i :: ReadsAs(step.bindings[k], answers(k))
        invariant Clean() <==> old(Clean()) && forall k | 0 <= k < i :: B.OnlyReads(answers(k).requests)
        invariant Clean() ==> boundary.View() == old(boundary.View())
      {
        var same := ReadBack(step.bindings[i], answers(i));
        ok := ok && same;
        if answers(i).raises {
          return;
        }
      }
    }

    /** Opens the upload window; a refusal ends the run. */
    method OpenUpload() returns (accepted: bool)
      requires Linked() && Me().pc == P.Preparing
      modifies this, boundary
      ensures Linked() && old(trace) <= trace && ledger.row == old(ledger.row)
      ensures Me() == Driven(old(Me()), boundary.View(), accepted)
      ensures accepted <==> old(boundary.phase) == B.Read && !old(boundary.uploadBegun) && !old(boundary.submitBegun)
      ensures boundary.View() == if accepted then old(boundary.View()).(uploadBegun := true, phase := B.Upload)
                                 else old(boundary.View())
    {
      accepted := boundary.BeginUploadPhase();
      Take(P.Drive(me, B.BeginUpload));
    }

    method CloseUpload() returns (accepted: bool)
      requires Linked() && Me().pc == P.Preparing
      modifies this, boundary
      ensures Linked() && old(trace) <= trace && ledger.row == old(ledger.row)
      ensures Me() == Driven(old(Me()), boundary.View(), accepted)
      ensures accepted <==> old(boundary.phase) == B.Upload
      ensures boundary.View() == if accepted then old(boundary.View()).(phase := B.Read) else old(boundary.View())
    {
      accepted := boundary.EndUploadPhase();
      Take(P.Drive(me, B.EndUpload));
    }

    /** `upload`: nothing denied so far, the window opened around the call and closed again whatever happens in it. */
    method UploadFile(cv: Cv, bytes: nat, page: StepPage) returns (ok: bool)
      requires Preparing() && Clean() && !boundary.uploadBegun
      modifies this, boundary
      ensures Interrupted() && old(trace) <= trace && ledger.row == old(ledger.row)
      ensures ok ==> Preparing() && UploadVerified(target, cv, bytes, page.uploadSeen)
      ensures ok && Clean() <==> UploadDone(target, boundary.config, cv, bytes, page)
      ensures ok && Clean() ==> boundary.uploadBegun
    {
      if boundary.blockedWriteCount != 0 {
        return false;
      }
      ok := OpenUpload();
      if ok {
        B.UploadPhaseIsQuietIff(boundary.config, boundary.View(), page.uploadRequests);
        Deliver(page.uploadRequests);
        ok := CloseUpload();
        ok := ok && !page.uploadRaises && UploadVerified(target, cv, bytes, page.uploadSeen);
      }
    }

    /** The acting half of a page: surface, writes, and its upload unless there was one before. */
    method WritePage(m: Manifest, bytes: nat, step: FormStep, page: StepPage, uploads: nat) returns (ok: bool)
      requires Preparing() && (Clean() ==> (boundary.uploadBegun <==> uploads > 0))
      modifies this, boundary
      ensures Interrupted() && old(trace) <= trace && ledger.row == old(ledger.row)
      ensures ok ==> Preparing()
      ensures ok && Clean() <==>
              && old(Clean()) && PageWritten(target, boundary.config, m, bytes, step, page)
              && (step.upload.None? || uploads == 0)
      ensures ok && Clean() ==> (boundary.uploadBegun <==> uploads > 0 || step.upload.Some?)
    {
      ok := Inspect(step, page.first);
      if ok {
        ok := WriteBindings(step, page);
      }
      if ok && step.upload.Some? {
        if uploads != 0 {
          return false;
        }
        ok := UploadFile(m.cv, bytes, page);
      }
    }

    /** On to the next page, unless something was denied. */
    method Advance(reaction: Reaction) returns (ok: bool)
      requires Preparing()
      modifies this, boundary
      ensures Preparing() && old(trace) <= trace && ledger.row == old(ledger.row)
      ensures ok && Clean() <==> old(Clean()) && !reaction.raises && B.OnlyReads(reaction.requests)
      ensures Clean() ==> boundary.View() == old(boundary.View())
    {
      if boundary.blockedWriteCount != 0 {
        return false;
      }
      Browse(reaction.requests);
      ok := !reaction.raises;
    }

    /** The checking half: the surface and every binding once more, then on to the next page. */
    method LeavePage(step: FormStep, page: StepPage, final: bool) returns (ok: bool)
      requires Preparing()
      modifies this, boundary
      ensures Preparing() && old(trace) <= trace && ledger.row == old(ledger.row)
      ensures ok && Clean() <==> old(Clean()) && PageLeft(step, page, final)
      ensures Clean() ==> boundary.View() == old(boundary.View())
    {
      ok := Inspect(step, page.last);
      if ok {
        ok := RereadBindings(step, page.reread);
      }
      if ok && !final {
        ok := Advance(page.advancing);
      }
    }

    /** One page of the form. */
    method FillStep(m: Manifest, bytes: nat, step: FormStep, page: StepPage, final: bool, uploads: nat)
      returns (ok: bool)
      requires Preparing() && (Clean() ==> (boundary.uploadBegun <==> uploads > 0))
      modifies this, boundary
      ensures Interrupted() && old(trace) <= trace && ledger.row == old(ledger.row)
      ensures ok ==> Preparing()
      ensures ok && Clean() <==>
              && old(Clean()) && PageFilled(target, boundary.config, m, bytes, step, page, final)
              && (step.upload.None? || uploads == 0)
      ensures ok && Clean() ==> (boundary.uploadBegun <==> uploads > 0 || step.upload.Some?)
    {
      ok := WritePage(m, bytes, step, page, uploads);
      if ok {
        ok := LeavePage(step, page, final);
      }
    }

    /** One more page on top of the first `i`, and whether all went well so far. */
    method FillNext(m: Manifest, bytes: nat, page: nat -> StepPage, i: nat, uploads: nat, ghost began: bool)
      returns (ok: bool)
      requires Preparing() && i < |m.steps| && uploads == Uploads(m.steps[..i])
      requires Clean() <==> began && Uploads(m.steps[..i]) <= 1 && PagesFilled(target, boundary.config, m, bytes, page, i)
      requires Clean() ==> (boundary.uploadBegun <==> Uploads(m.steps[..i]) > 0)
      modifies this, boundary
      ensures Interrupted() && old(trace) <= trace && ledger.row == old(ledger.row)
      ensures ok ==> Preparing()
      ensures ok && Clean() <==>
              began && Uploads(m.steps[..i + 1]) <= 1 && PagesFilled(target, boundary.config, m, bytes, page, i + 1)
      ensures ok && Clean() ==> (boundary.uploadBegun <==> Uploads(m.steps[..i + 1]) > 0)
    {
      UploadsAppend(m.steps, i);
      ok := FillStep(m, bytes, m.steps[i], page(i), i + 1 == |m.steps|, uploads);
    }

    /**
     Every page in order; exactly one upload in all. It succeeds with nothing
     denied exactly when every page was filled.
     */
    method FillForm(m: Manifest, bytes: nat, page: nat -> StepPage) returns (ok: bool)
      requires Preparing() && (Clean() ==> !boundary.uploadBegun)
      modifies this, boundary
      ensures Interrupted() && old(trace) <= trace && ledger.row == old(ledger.row)
      ensures ok ==> Preparing()
      ensures ok && Clean() <==>
              old(Clean()) && Uploads(m.steps) == 1 && PagesFilled(target, boundary.config, m, bytes, page, |m.steps|)
    {
      var uploads := 0;
      for i := 0 to |m.steps|
        invariant Preparing() && old(trace) <= trace && ledger.row == old(ledger.row)
        invariant uploads == Uploads(m.steps[..i])
        invariant Clean() <==> old(Clean()) && uploads <= 1 && PagesFilled(target, boundary.config, m, bytes, page, i)
        invariant Clean() ==> (boundary.uploadBegun <==> uploads > 0)
      {
        UploadsAppend(m.steps, i);
        ok := FillNext(m, bytes, page, i, uploads, old(Clean()));
        if !ok {
          UploadsGrow(m.steps, i + 1);
          return;
        }
        uploads := uploads + if m.steps[i].upload.Some? then 1 else 0;
      }
      assert m.steps[..|m.steps|] == m.steps;
      ok := uploads == 1;
    }

    /** The run exists from here on; without authority it is over. */
    method Launch(authorised: bool)
      requires Traced() && ledger.Valid() && boundary.Valid() && boundary.View() == B.INITIAL
      requires boundary.config == job.config && state.row == ledger.row && me !in state.runs
      modifies this
      ensures Linked() && old(trace) <= trace
      ensures Me() == P.Run(job, if authorised then P.Opened else P.Finished(P.RuntimeDisabled), false, false, 0, B.INITIAL)
    {
      Take(P.Launch(me, job, authorised));
    }

    /** An occupied or unreadable ledger ends the run before the form is touched. */
    method CheckIntent(fault: L.Fault) returns (outcome: Option<P.Outcome>)
      requires Linked() && Me() == P.Run(job, P.Opened, false, false, 0, boundary.View()) && boundary.View() == B.INITIAL
      modifies this
      ensures Linked() && old(trace) <= trace
      ensures outcome == None <==> ledger.row == None && fault == L.NoFault
      ensures outcome == Some(P.DuplicateOrUncertain) <==> ledger.row != None && fault == L.NoFault
      ensures outcome.None? ==> Preparing()
      ensures outcome.Some? ==> Me().pc == P.Finished(outcome.value) && outcome.value in {P.DuplicateOrUncertain, P.Blocked}
    {
      var reply := ledger.Occupied(fault);
      L.QuestionsAreAnswered(ledger.hash, ledger.row, "", fault);
      Take(P.CheckIntent(me, fault));
      outcome := if reply == L.Flag(false) then None
                 else if reply == L.Flag(true) then Some(P.DuplicateOrUncertain) else Some(P.Blocked);
    }

    method ReserveIntent(inspectedAt: int, checkedAt: int, now: int, fault: L.Fault) returns (ok: bool)
      requires Preparing()
      modifies this, ledger
      ensures Linked() && old(trace) <= trace && L.Extends(old(ledger.row), ledger.row)
      ensures ok <==> Reservable(job, inspectedAt, checkedAt, now) && old(ledger.row) == None && fault == L.NoFault
      ensures ledger.row != old(ledger.row) <==>
              Reservable(job, inspectedAt, checkedAt, now) && old(ledger.row) == None && fault != L.BeforeCommit
      ensures ledger.row != old(ledger.row) ==>
                ledger.row == Some(L.Row(job.ids.Hashed(ledger.hash), L.Validated, inspectedAt, now, None, None))
      ensures ok ==> Me() == P.Run(job, P.Reserved, false, false, inspectedAt, boundary.View())
      ensures !ok ==> Me().pc == P.Finished(P.Blocked)
    {
      L.ReserveIff(ledger.hash, ledger.row, L.Attempt(job.ids, L.Utc(inspectedAt), true), L.Utc(now), fault);
      ok := 0 <= checkedAt - inspectedAt <= P.REVIEW_WINDOW;
      if ok {
        var reply := ledger.Reserve(L.Attempt(job.ids, L.Utc(inspectedAt), true), L.Utc(now), fault);
        ok := reply == L.Flag(true);
      }
      Take(P.Reserve(me, inspectedAt, checkedAt, L.Utc(now), fault));
    }

    /** The start is durable before the driver's own flag is set. */
    method MarkStarted(ghost inspectedAt: int, now: int, fault: L.Fault) returns (ok: bool)
      requires Linked() && Me() == P.Run(job, P.Reserved, false, false, inspectedAt, boundary.View())
      requires job.ids.AllOpaque() && ledger.row.Some? && ledger.row.value.status == L.Validated
      requires ledger.row.value.ids == job.ids.Hashed(ledger.hash)
      modifies this, ledger
      ensures Linked() && old(trace) <= trace && L.Extends(old(ledger.row), ledger.row)
      ensures ok <==> old(ledger.row.value.reservedAt) <= now && fault == L.NoFault
      ensures ledger.row == if old(ledger.row.value.reservedAt) <= now && fault != L.BeforeCommit then
                              Some(old(ledger.row).value.(status := L.SubmittedUnconfirmed, startedAt := Some(now)))
                            else old(ledger.row)
      ensures ok ==> Me() == P.Run(job, P.Started, true, false, inspectedAt, boundary.View())
      ensures !ok ==> Me().pc == P.Finished(P.Blocked)
    {
      L.StartIff(ledger.hash, ledger.row, job.ids.submitKey, job.ids.executionId, L.Utc(now), fault);
      var reply := ledger.Start(job.ids.submitKey, job.ids.executionId, L.Utc(now), fault);
      ok := reply == L.Done;
      Take(P.Start(me, L.Utc(now), fault));
    }

    /** A started run that is still going, past the call of `submit_once`. */
    ghost predicate Going(inspectedAt: int)
      reads this, ledger, boundary
    {
      && Linked() && Me() == P.Run(job, Me().pc, true, true, inspectedAt, boundary.View())
      && Me().pc in {P.Submitting, P.Armed}
    }

    /** `submit_once` up to the arming: refuse on anything denied or attempted before. */
    method EnterSubmit(ghost inspectedAt: int, raises: bool) returns (ok: bool)
      requires Linked() && Me() == P.Run(job, P.Started, true, false, inspectedAt, boundary.View())
      requires Calm(boundary.View())
      modifies this
      ensures Linked() && old(trace) <= trace
      ensures ok <==> Clean() && !raises
      ensures ok ==> Going(inspectedAt) && Me().pc == P.Submitting
      ensures !ok ==> Me().pc == P.Finished(P.Unconfirmed)
    {
      ok := boundary.blockedWriteCount == 0 && boundary.applicationAttempts == 0;
      Take(P.CallSubmit(me));
      if ok && raises {
        Fail();
        ok := false;
      }
    }

    /** Arms the boundary; a refusal leaves the run unconfirmed. */
    method Arm(ghost inspectedAt: int) returns (ok: bool)
      requires Going(inspectedAt) && Me().pc == P.Submitting
      modifies this, boundary
      ensures Linked() && old(trace) <= trace && ledger.row == old(ledger.row)
      ensures ok <==> old(boundary.phase) == B.Read && !old(boundary.submitBegun)
      ensures ok ==> boundary.View() == old(boundary.View()).(phase := B.Submit, submitBegun := true)
      ensures ok ==> Going(inspectedAt) && Me().pc == P.Armed
      ensures !ok ==> Me().pc == P.Finished(P.Unconfirmed)
    {
      ok := boundary.BeginSubmitPhase();
      Take(P.ArmSubmit(me));
    }

    /**
     `submit_once`: enter, arm the boundary, click, watch. Afterwards the page's
     requests account for the boundary's counters.
     */
    method SubmitOnce(ghost inspectedAt: int, page: SubmitPage) returns (ok: bool)
      requires Linked() && Me() == P.Run(job, P.Started, true, false, inspectedAt, boundary.View())
      requires Calm(boundary.View())
      modifies this, boundary
      ensures Linked() && old(trace) <= trace && ledger.row == old(ledger.row)
      ensures ok <==> old(Clean()) && !page.raisesBefore && !page.raisesAfter
      ensures ok ==> Going(inspectedAt) && Me().pc == P.Armed
      ensures ok ==> (boundary.blockedWriteCount == 0 && boundary.applicationAttempts == 1 <==>
                      B.OnlyPostsTo(boundary.config.applicationUrl, page.requests) && B.Counted(page.requests) == 1)
      ensures !ok ==> Me().pc == P.Finished(P.Unconfirmed)
    {
      ok := EnterSubmit(inspectedAt, page.raisesBefore);
      if ok {
        ok := Arm(inspectedAt);
      }
      if ok {
        B.SubmitPhaseIsQuietIff(boundary.config, boundary.View(), page.requests);
        Deliver(page.requests);
        if page.raisesAfter {
          Fail();
          ok := false;
        }
      }
    }

    /** What the driver accepts as a confirmation. */
    method AcceptObservation(inspectedAt: int, seen: P.Observation, now: int) returns (ok: bool)
      requires Going(inspectedAt) && Me().pc == P.Armed
      modifies this
      ensures Linked() && old(trace) <= trace
      ensures ok <==> && boundary.blockedWriteCount == 0 && boundary.applicationAttempts == 1
                      && Acknowledged(boundary.config, seen) && inspectedAt <= seen.observedAt <= now
      ensures ok ==> Me() == P.Run(job, P.Observed(seen), true, true, inspectedAt, boundary.View())
      ensures !ok ==> Me().pc == P.Finished(P.Unconfirmed)
    {
      ok := && seen.endpoint == boundary.config.applicationUrl && seen.status in {200, 201} && seen.success && seen.visible
            && !seen.popup && boundary.applicationAttempts == 1 && boundary.blockedWriteCount == 0
            && L.IsEvidenceRef("evidence:sha256:" + seen.acknowledgement)
            && inspectedAt <= seen.observedAt <= now;
      assert ok == P.Acceptable(Me(), seen, now);
      DigestOfRef(seen.acknowledgement);
      Take(P.Observe(me, seen, now));
    }

    method ConfirmEmployer(ghost inspectedAt: int, seen: P.Observation, now: int, fault: L.Fault)
      returns (outcome: P.Outcome)
      requires Linked() && Me() == P.Run(job, P.Observed(seen), true, true, inspectedAt, boundary.View())
      requires job.ids.AllOpaque() && Acknowledged(boundary.config, seen)
      requires ledger.row.Some? && ledger.row.value.status == L.SubmittedUnconfirmed
      requires ledger.row.value.ids == job.ids.Hashed(ledger.hash)
      modifies this, ledger
      ensures Linked() && old(trace) <= trace && L.Extends(old(ledger.row), ledger.row)
      ensures Me().pc == P.Finished(outcome)
      ensures outcome == P.EmployerConfirmed("evidence:sha256:" + seen.acknowledgement) <==>
              old(ledger.row).value.startedAt.value <= seen.observedAt <= now && fault == L.NoFault
      ensures var row := old(ledger.row).value;
              ledger.row == if row.startedAt.value <= seen.observedAt <= now && fault != L.BeforeCommit then
                              Some(row.(status := L.Confirmed, confirmation := Some(ConfirmationOf(seen, now))))
                            else old(ledger.row)
      ensures outcome in {P.Unconfirmed, P.EmployerConfirmed("evidence:sha256:" + seen.acknowledgement)}
    {
      var ref := "evidence:sha256:" + seen.acknowledgement;
      var proof := L.ConfirmationEvidence(job.ids.submitKey, L.Evidence(L.AtsAcknowledgement, ref), L.Utc(seen.observedAt),
                                          true, job.ids.executionId, job.ids.requisitionId);
      DigestOfRef(seen.acknowledgement);
      L.RecordIff(ledger.hash, ledger.row, job.ids.submitKey, proof, L.Utc(now), fault);
      var reply := ledger.Record(job.ids.submitKey, proof, L.Utc(now), fault);
      assert proof == P.EvidenceOf(Me(), seen);
      Take(P.Confirm(me, L.Utc(now), fault));
      outcome := if reply == L.Flag(true) then P.EmployerConfirmed(ref) else P.Unconfirmed;
    }

    /** The last page once more: its surface, and every binding. */
    method Recheck(final: FormStep, look: Look, answers: nat -> Answer) returns (ok: bool)
      requires Preparing()
      modifies this, boundary
      ensures Preparing() && old(trace) <= trace && ledger.row == old(ledger.row)
      ensures ok <==> old(Clean()) && LookOk(final, look) && Reread(final, answers)
      ensures ok ==> (Clean() <==> QuietAnswers(final, answers))
    {
      ok := Inspect(final, look);
      if ok {
        ok := RereadBindings(final, answers);
      }
    }

    /** The last page as it stands: ready, allowed by SUBMIT-1, and as reviewed once more. */
    method CheckFinalPage(final: FormStep, script: Script, review: S.Request, authority: S.SubmitAuthority)
      returns (ok: bool)
      requires Preparing()
      modifies this, boundary
      ensures Preparing() && old(trace) <= trace && ledger.row == old(ledger.row)
      ensures ok <==> old(Clean()) && FinalPageReady(final, script) && Allowed(review, authority)
      ensures ok ==> (Clean() <==> QuietAnswers(final, script.rechecked))
    {
      ok := Inspect(final, script.ready);
      if !ok || !script.ready.formValid || !script.ready.submitVisible {
        return false;
      }
      ok := ReviewAllows(review, authority);
      if ok {
        ok := Recheck(final, script.recheck, script.rechecked);
      }
    }

    /** Everything between the free ledger and the reservation: open, fill, then check the final page. */
    method PrepareForm(m: Manifest, bytes: nat, script: Script, review: S.Request, authority: S.SubmitAuthority)
      returns (ok: bool)
      requires Preparing() && Clean() && !boundary.uploadBegun && m.steps != []
      modifies this, boundary
      ensures Interrupted() && old(trace) <= trace && ledger.row == old(ledger.row)
      ensures ok ==> Preparing()
      ensures ok <==> Filled(target, boundary.config, m, bytes, script) && Allowed(review, authority)
      ensures ok ==> (Clean() <==> QuietAnswers(m.steps[|m.steps| - 1], script.rechecked))
    {
      Browse(script.opening.requests);
      ok := !script.opening.raises;
      if ok {
        ok := FillForm(m, bytes, script.page);
      }
      if ok {
        ok := CheckFinalPage(m.steps[|m.steps| - 1], script, review, authority);
      }
    }

    /** The two transactions before the effect: reserve and start. */
    method ConsumeIntent(script: Script, storage: Storage) returns (ok: bool)
      requires Preparing()
      modifies this, ledger
      ensures Linked() && old(trace) <= trace && L.Extends(old(ledger.row), ledger.row)
      ensures ok <==> old(ledger.row) == None && Consumable(job, script, storage)
      ensures ledger.row != old(ledger.row) <==>
              && old(ledger.row) == None && storage.reserve != L.BeforeCommit
              && Reservable(job, script.inspectedAt, script.checkedAt, storage.reserveAt)
      ensures ledger.row != old(ledger.row) ==> ledger.row == Some(RowLeft(ledger.hash, job, script, storage, false))
      ensures ok ==> Me() == P.Run(job, P.Started, true, false, script.inspectedAt, boundary.View())
      ensures !ok ==> Me().pc == P.Finished(P.Blocked)
    {
      ok := ReserveIntent(script.inspectedAt, script.checkedAt, storage.reserveAt, storage.reserve);
      if ok {
        ok := MarkStarted(script.inspectedAt, storage.startAt, storage.start);
      }
    }

    /** After the start: submit once, watch, confirm. */
    method SubmitAndConfirm(script: Script, storage: Storage) returns (outcome: P.Outcome)
      requires Linked() && Me() == P.Run(job, P.Started, true, false, script.inspectedAt, boundary.View())
      requires Calm(boundary.View()) && job.ids.AllOpaque()
      requires Consumable(job, script, storage) && ledger.row == Some(RowLeft(ledger.hash, job, script, storage, false))
      modifies this, ledger, boundary
      ensures Linked() && old(trace) <= trace && L.Extends(old(ledger.row), ledger.row)
      ensures Me().pc == P.Finished(outcome) && outcome in {P.Unconfirmed, ConfirmedBy(script)}
      ensures outcome == ConfirmedBy(script) <==> old(Clean()) && EmployerConfirms(job.config, script, storage)
      ensures ledger.row == Some(RowLeft(ledger.hash, job, script, storage,
                                         old(Clean()) && EmployerAnswers(job.config, script, storage)))
    {
      var ok := SubmitOnce(script.inspectedAt, script.submit);
      if ok {
        ok := AcceptObservation(script.inspectedAt, script.submit.seen, storage.acceptedAt);
      }
      if !ok {
        return P.Unconfirmed;
      }
      outcome := ConfirmEmployer(script.inspectedAt, script.submit.seen, storage.confirmAt, storage.confirm);
    }

    /** From the prepared form to the end: reserve, start, submit once, confirm. */
    method SubmitPrepared(script: Script, storage: Storage) returns (outcome: P.Outcome)
      requires Preparing()
      modifies this, ledger, boundary
      ensures Linked() && old(trace) <= trace && L.Extends(old(ledger.row), ledger.row)
      ensures Me().pc == P.Finished(outcome) && outcome in {P.Blocked, P.Unconfirmed, ConfirmedBy(script)}
      ensures outcome != P.Blocked <==> old(ledger.row) == None && Consumable(job, script, storage)
      ensures ledger.row != old(ledger.row) <==>
              && old(ledger.row) == None && storage.reserve != L.BeforeCommit
              && Reservable(job, script.inspectedAt, script.checkedAt, storage.reserveAt)
      ensures outcome == ConfirmedBy(script) <==>
              && old(ledger.row) == None && Consumable(job, script, storage)
              && old(Clean()) && EmployerConfirms(job.config, script, storage)
      ensures ledger.row != old(ledger.row) ==>
                ledger.row == Some(RowLeft(ledger.hash, job, script, storage,
                                           old(Clean()) && EmployerAnswers(job.config, script, storage)))
    {
      var ok := ConsumeIntent(script, storage);
      if !ok {
        return P.Blocked;
      }
      outcome := SubmitAndConfirm(script, storage);
    }

    /** Authority and ledger, before the form is touched. */
    method Begin(authority: S.SubmitAuthority, fault: L.Fault) returns (outcome: Option<P.Outcome>)
      requires Traced() && ledger.Valid() && boundary.Valid() && boundary.View() == B.INITIAL
      requires boundary.config == job.config && state.row == ledger.row && me !in state.runs
      modifies this
      ensures Linked() && old(trace) <= trace
      ensures outcome == Some(P.RuntimeDisabled) <==> authority.Valid() && !authority.ClickAllowed()
      ensures outcome == Some(P.DuplicateOrUncertain) <==>
              authority.Valid() && authority.ClickAllowed() && ledger.row != None && fault == L.NoFault
      ensures outcome == None <==> authority.Valid() && authority.ClickAllowed() && ledger.row == None && fault == L.NoFault
      ensures outcome.None? ==> Preparing()
      ensures outcome.Some? ==> Me().pc == P.Finished(outcome.value)
                                && outcome.value in {P.RuntimeDisabled, P.DuplicateOrUncertain, P.Blocked}
    {
      Launch(!authority.Valid() || authority.ClickAllowed());
      if !authority.Valid() {
        Fail();
        return Some(P.Blocked);
      }
      if !authority.ClickAllowed() {
        return Some(P.RuntimeDisabled);
      }
      outcome := CheckIntent(fault);
    }

    /** What the protocol guarantees of a run that reports a confirmed employer. */
    lemma ConfirmedIsBacked(ref: string)
      requires Linked() && Me().pc == P.Finished(P.EmployerConfirmed(ref))
      ensures boundary.applicationRequestsAllowed == 1 && ledger.row.Some? && ledger.row.value.status == L.Confirmed
      ensures ledger.row.value.confirmation.Some? && ledger.row.value.confirmation.value.evidence.ref == ref
    {
      P.ReachableInv(ledger.hash, trace);
      assert P.RunOk(ledger.hash, state, me, Me());
    }

    /** The run past the free ledger: nothing is opened unless manifest, target, posting and CV agree. */
    method PrepareAndSubmit(m: Manifest, sources: Sources, script: Script, review: S.Request,
                            authority: S.SubmitAuthority, storage: Storage) returns (outcome: P.Outcome)
      requires Preparing() && boundary.View() == B.INITIAL && ledger.row == None
      modifies this, ledger, boundary
      ensures Linked() && old(trace) <= trace && L.Extends(old(ledger.row), ledger.row)
      ensures Me().pc == P.Finished(outcome) && outcome in {P.Blocked, P.Unconfirmed, ConfirmedBy(script)}
      ensures outcome != P.Blocked <==>
              Established(target, job.config, m, sources, script, review, authority) && Consumable(job, script, storage)
      ensures outcome == ConfirmedBy(script) <==>
              && Established(target, job.config, m, sources, script, review, authority) && Consumable(job, script, storage)
              && QuietAnswers(m.steps[|m.steps| - 1], script.rechecked) && EmployerConfirms(job.config, script, storage)
      ensures ledger.row != None <==>
              && Established(target, job.config, m, sources, script, review, authority) && storage.reserve != L.BeforeCommit
              && Reservable(job, script.inspectedAt, script.checkedAt, storage.reserveAt)
      ensures ledger.row != None ==>
                var quiet := QuietAnswers(m.steps[|m.steps| - 1], script.rechecked);
                ledger.row == Some(RowLeft(ledger.hash, job, script, storage,
                                           quiet && EmployerAnswers(job.config, script, storage)))
      ensures !Opens(target, m, sources) ==> boundary.View() == B.INITIAL
    {
      if !Opens(target, m, sources) {
        Fail();
        return P.Blocked;
      }
      var ok := PrepareForm(m, sources.cvBytes, script, review, authority);
      if !ok {
        Fail();
        return P.Blocked;
      }
      outcome := SubmitPrepared(script, storage);
    }

    /**
     `run`. Whatever the page and the storage do, the objects end where an
     execution of the protocol that continues the earlier one leaves this run,
     with the returned outcome, and nothing recorded is lost. Which outcome it is,
     and whether the slot of the ledger is consumed, is exactly a condition on the
     manifest, the sources, the page, the review, the authority and the storage.
     */
    method Execute(m: Manifest, sources: Sources, script: Script, review: S.Request, authority: S.SubmitAuthority,
                   storage: Storage)
      returns (outcome: P.Outcome)
      requires Traced() && ledger.Valid() && boundary.Valid() && boundary.View() == B.INITIAL
      requires boundary.config == job.config && state.row == ledger.row && me !in state.runs
      modifies this, ledger, boundary
      ensures Linked() && old(trace) <= trace && L.Extends(old(ledger.row), ledger.row)
      ensures Me().pc == P.Finished(outcome)
      ensures outcome in {P.RuntimeDisabled, P.DuplicateOrUncertain, P.Blocked, P.Unconfirmed, ConfirmedBy(script)}
      ensures outcome == P.RuntimeDisabled <==> authority.Valid() && !authority.ClickAllowed()
      ensures outcome == P.DuplicateOrUncertain <==>
              authority.Valid() && authority.ClickAllowed() && old(ledger.row) != None && storage.look == L.NoFault
      ensures outcome in {P.Unconfirmed, ConfirmedBy(script)} <==>
              old(ledger.row) == None && Starts(target, job, m, sources, script, review, authority, storage)
      ensures outcome == ConfirmedBy(script) <==>
              && old(ledger.row) == None && Starts(target, job, m, sources, script, review, authority, storage)
              && QuietAnswers(m.steps[|m.steps| - 1], script.rechecked) && EmployerConfirms(job.config, script, storage)
      ensures ledger.row != old(ledger.row) <==>
              && old(ledger.row) == None && storage.look == L.NoFault && storage.reserve != L.BeforeCommit
              && authority.Valid() && authority.ClickAllowed()
              && Established(target, job.config, m, sources, script, review, authority)
              && Reservable(job, script.inspectedAt, script.checkedAt, storage.reserveAt)
      ensures ledger.row != old(ledger.row) ==>
                var quiet := QuietAnswers(m.steps[|m.steps| - 1], script.rechecked);
                ledger.row == Some(RowLeft(ledger.hash, job, script, storage,
                                           quiet && EmployerAnswers(job.config, script, storage)))
      ensures old(ledger.row) != None || !Opens(target, m, sources) ==> boundary.View() == B.INITIAL
      ensures outcome == ConfirmedBy(script) ==>
                && boundary.applicationRequestsAllowed == 1 && ledger.row.Some?
                && ledger.row.value.status == L.Confirmed && ledger.row.value.confirmation.Some?
                && ledger.row.value.confirmation.value.evidence.ref == ConfirmedBy(script).evidenceRef
    {
      var stopped := Begin(authority, storage.look);
      if stopped.Some? {
        return stopped.value;
      }
      outcome := PrepareAndSubmit(m, sources, script, review, authority, storage);
      if outcome == ConfirmedBy(script) {
        ConfirmedIsBacked(outcome.evidenceRef);
      }
    }
  }

  // ----- The conditions of a run

  /** As long as nothing was denied, the boundary is outside its two windows and no application was sent. */
  ghost predicate Calm(s: B.State) {
    s.blocked == 0 ==>
      && s.phase == B.Read && !s.submitBegun && s.attempts == s.applicationsAllowed == 0
      && (!s.uploadBegun ==> s.uploadsAllowed == 0)
  }

  /** Everything that must have held before the intent is consumed. */
  ghost predicate Established(target: B.Target, config: B.Config, m: Manifest, sources: Sources, script: Script,
                              review: S.Request, authority: S.SubmitAuthority)
  {
    && Opens(target, m, sources) && Filled(target, config, m, sources.cvBytes, script) && Allowed(review, authority)
  }

  /** SUBMIT-1 allows execution. */
  predicate Allowed(review: S.Request, authority: S.SubmitAuthority) {
    && S.Validate(review, S.APPROVED, authority).Ok?
    && S.Validate(review, S.APPROVED, authority).value.executionAllowed
  }

  /** The review is at most two minutes old, and the ledger can store it. */
  predicate Reservable(job: P.Job, inspectedAt: int, checkedAt: int, reserveAt: int) {
    0 <= checkedAt - inspectedAt <= 120 * 1_000_000 && job.ids.AllOpaque() && inspectedAt <= reserveAt
  }

  /** Both transactions before the effect go through on a free slot. */
  predicate Consumable(job: P.Job, script: Script, storage: Storage) {
    && Reservable(job, script.inspectedAt, script.checkedAt, storage.reserveAt) && storage.reserve == L.NoFault
    && storage.reserveAt <= storage.startAt && storage.start == L.NoFault
  }

  /** The run gets past its start. */
  ghost predicate Starts(target: B.Target, job: P.Job, m: Manifest, sources: Sources, script: Script, review: S.Request,
                         authority: S.SubmitAuthority, storage: Storage)
  {
    && authority.Valid() && authority.ClickAllowed() && storage.look == L.NoFault
    && Established(target, job.config, m, sources, script, review, authority) && Consumable(job, script, storage)
  }

  /** The response and the page acknowledge this application. */
  ghost predicate Acknowledged(config: B.Config, seen: P.Observation) {
    && seen.endpoint == config.applicationUrl && (seen.status == 200 || seen.status == 201)
    && seen.success && seen.visible && !seen.popup
    && |seen.acknowledgement| == 64
    && forall c | c in seen.acknowledgement :: 48 <= c as int <= 57 || 97 <= c as int <= 102
  }

  /** What it takes after the start: one plain application POST and nothing else, and an acknowledgement in time. */
  ghost predicate EmployerAnswers(config: B.Config, script: Script, storage: Storage) {
    && !script.submit.raisesBefore && !script.submit.raisesAfter
    && B.OnlyPostsTo(config.applicationUrl, script.submit.requests) && B.Counted(script.submit.requests) == 1
    && Acknowledged(config, script.submit.seen)
    && script.inspectedAt <= script.submit.seen.observedAt <= storage.acceptedAt
    && storage.startAt <= script.submit.seen.observedAt <= storage.confirmAt
  }

  /** And a record of it. */
  ghost predicate EmployerConfirms(config: B.Config, script: Script, storage: Storage) {
    EmployerAnswers(config, script, storage) && storage.confirm == L.NoFault
  }

  function ConfirmationOf(seen: P.Observation, now: int): L.Confirmation {
    L.Confirmation(now, seen.observedAt, L.Evidence(L.AtsAcknowledgement, "evidence:sha256:" + seen.acknowledgement))
  }

  /**
   The row of a consumed slot: this job's identities, the time of the review, the
   clock readings of the transactions that went in, and the evidence, if any.
   */
  function RowLeft(hash: string -> L.Digest, job: P.Job, script: Script, storage: Storage, answered: bool): L.Row {
    var reported := storage.reserve == L.NoFault && storage.reserveAt <= storage.startAt;
    var started := reported && storage.start != L.BeforeCommit;
    var confirmed := reported && storage.start == L.NoFault && answered && storage.confirm != L.BeforeCommit;
    L.Row(job.ids.Hashed(hash), if confirmed then L.Confirmed else if started then L.SubmittedUnconfirmed else L.Validated,
          script.inspectedAt, storage.reserveAt, if started then Some(storage.startAt) else None,
          if confirmed then Some(ConfirmationOf(script.submit.seen, storage.confirmAt)) else None)
  }

  function ConfirmedBy(script: Script): P.Outcome {
    P.EmployerConfirmed("evidence:sha256:" + script.submit.seen.acknowledgement)
  }

  lemma DigestOfRef(digest: string)
    ensures L.IsEvidenceRef("evidence:sha256:" + digest) <==>
            |digest| == 64 && forall c | c in digest :: 48 <= c as int <= 57 || 97 <= c as int <= 102
  {
    var ref := "evidence:sha256:" + digest;
    L.EvidenceRefIff(ref);
    if L.IsEvidenceRef(ref) {
      var digits :| ref == "evidence:sha256:" + digits && |digits| == 64
                    && forall c | c in digits :: 48 <= c as int <= 57 || 97 <= c as int <= 102;
      assert digits == ref[16..] == digest;
    }
  }

  function Driven(run: P.Run, boundary: B.State, accepted: bool): P.Run {
    var moved := run.(boundary := boundary);
    if accepted then moved else P.Stopped(moved)
  }

  // ----- The comparisons, one by one

  lemma SurfaceIs(step: FormStep, look: Look)
    ensures SurfaceOk(step, look) <==>
            && !look.raises && !look.challenge && !look.externalSurface && !look.unreviewedPrefill
            && look.url == step.url && look.fingerprint == step.fingerprint
            && forall key :: key in look.requiredKeys <==>
                 step.upload == Some(key) || exists b :: b in step.bindings && b.required && b.key == key
  {
    assert look.requiredKeys == ExpectedKeys(step) <==> forall key :: key in look.requiredKeys <==> key in ExpectedKeys(step);
  }

  lemma UploadIs(target: B.Target, cv: Cv, bytes: nat, seen: UploadSeen)
    ensures UploadVerified(target, cv, bytes, seen) <==>
            && seen == UploadSeen(cv.sha256, bytes, cv.filename, seen.attachment, target.ResumeUploadUrl(cv.filename), true)
            && |seen.attachment| == 64
            && forall c | c in seen.attachment :: 48 <= c as int <= 57 || 97 <= c as int <= 102
  {
    forall c | c in seen.attachment
      ensures 48 <= c as int <= 57 || 97 <= c as int <= 102 <==> L.IsHexDigit(c)
    {
    }
  }

  /** The manifest is at most a day old, starts and ends at the target's pages, and every source agrees with it. */
  lemma OpensIs(target: B.Target, m: Manifest, sources: Sources)
    ensures Opens(target, m, sources) <==>
            && sources.now.Utc? && m.reviewedAt.Utc?
            && m.reviewedAt.at <= sources.now.at <= m.reviewedAt.at + 86_400_000_000
            && sources.postingVerified && sources.cvApproved && m.requisitionId == target.requisitionId
            && |m.steps| > 0 && m.steps[0].url == target.EntryUrl() && m.steps[|m.steps| - 1].url == target.ScreeningUrl()
  {
  }

  lemma {:induction false} UploadsAreCounted(steps: seq<FormStep>)
    ensures Uploads(steps) == |set i | 0 <= i < |steps| && steps[i].upload.Some?|
  {
    if steps != [] {
      var n := |steps| - 1;
      UploadsAreCounted(steps[..n]);
      var before, now := set i | 0 <= i < n && steps[..n][i].upload.Some?, set i | 0 <= i <= n && steps[i].upload.Some?;
      assert now == if steps[n].upload.Some? then before + {n} else before;
      assert now == set i | 0 <= i < |steps| && steps[i].upload.Some?;
    }
  }

  // ----- Every reviewed manifest can be applied for

  function Expected(step: FormStep): Look {
    Look(false, [], step.url, step.fingerprint, false, false, false, ExpectedKeys(step), true, true)
  }

  function Shows(step: FormStep): nat -> Answer {
    (i: nat) => Answer(false, [], if i < |step.bindings| then step.bindings[i].value else FlagValue(false))
  }

  function CleanPage(target: B.Target, m: Manifest, bytes: nat, step: FormStep): StepPage {
    StepPage(Expected(step), (i: nat) => Expected(step), Shows(step), (i: nat) => Expected(step), [], false,
             UploadSeen(m.cv.sha256, bytes, m.cv.filename, seq(64, i => 'a'), target.ResumeUploadUrl(m.cv.filename), true),
             Expected(step), Shows(step), Reaction(false, []))
  }

  /** A page that shows what was reviewed, sends the one application when asked, and acknowledges it. */
  function CleanScript(target: B.Target, config: B.Config, m: Manifest, bytes: nat): Script
    requires m.steps != []
  {
    var final := m.steps[|m.steps| - 1];
    Script(Reaction(false, []),
           (i: nat) => CleanPage(target, m, bytes, if i < |m.steps| then m.steps[i] else final),
           Expected(final), 0, Expected(final), Shows(final), 0,
           SubmitPage(false, false, [B.Request(B.Str("POST"), B.Str(config.applicationUrl), "", B.Bool(false))],
                      P.Observation(config.applicationUrl, 200, true, true, seq(64, i => 'a'), 0, false)))
  }

  lemma CleanPageIsFilled(target: B.Target, config: B.Config, m: Manifest, bytes: nat, step: FormStep, final: bool)
    ensures PageFilled(target, config, m, bytes, step, CleanPage(target, m, bytes, step), final)
  {
  }

  lemma CleanFormIsFilled(target: B.Target, config: B.Config, m: Manifest, bytes: nat)
    requires m.steps != [] && Uploads(m.steps) == 1
    ensures Filled(target, config, m, bytes, CleanScript(target, config, m, bytes))
    ensures QuietAnswers(m.steps[|m.steps| - 1], CleanScript(target, config, m, bytes).rechecked)
  {
    var script := CleanScript(target, config, m, bytes);
    forall i | 0 <= i < |m.steps|
      ensures PageFilled(target, config, m, bytes, m.steps[i], script.page(i), i + 1 == |m.steps|)
    {
      CleanPageIsFilled(target, config, m, bytes, m.steps[i], i + 1 == |m.steps|);
    }
  }

  const NO_FAULTS := Storage(L.NoFault, L.NoFault, 0, L.NoFault, 0, L.NoFault, 0, 0)

  lemma CleanSubmitConfirms(target: B.Target, config: B.Config, m: Manifest, bytes: nat)
    requires m.steps != []
    ensures EmployerConfirms(config, CleanScript(target, config, m, bytes), NO_FAULTS)
  {
    assert CleanScript(target, config, m, bytes).submit.requests[..0] == [];
  }

  /** Every manifest that opens, with one upload, is applied for and confirmed if the page behaves and no fault occurs. */
  lemma EveryManifestCanBeConfirmed(target: B.Target, job: P.Job, m: Manifest, sources: Sources, review: S.Request,
                                    authority: S.SubmitAuthority)
    requires Opens(target, m, sources) && Uploads(m.steps) == 1 && job.ids.AllOpaque()
    requires authority.Valid() && authority.ClickAllowed() && Allowed(review, authority)
    ensures var script := CleanScript(target, job.config, m, sources.cvBytes);
            && Starts(target, job, m, sources, script, review, authority, NO_FAULTS)
            && QuietAnswers(m.steps[|m.steps| - 1], script.rechecked) && EmployerConfirms(job.config, script, NO_FAULTS)
  {
    CleanFormIsFilled(target, job.config, m, sources.cvBytes);
    CleanSubmitConfirms(target, job.config, m, sources.cvBytes);
  }
}
