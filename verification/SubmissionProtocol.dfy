/** The single-application protocol: any number of runs of the driver and of dispatching clients, sharing one ledger. */
module SubmissionProtocol {
  import opened Wrappers
  import B = NetworkBoundary
  import L = SubmissionLedger

  // Each run has its own page and network boundary. A step is one ledger
  // transaction, one boundary call, one local check of the driver, one exception,
  // or one crash; the page may issue any request at any moment, and every reading
  // of the clock is arbitrary. A step that is not enabled changes nothing.

  /** What a run is given: the reviewed identities and the endpoints its boundary is built from. */
  datatype Job = Job(ids: L.Identity, config: B.Config)

  /** What `submit_once` reports; all of it is under the control of the page. */
  datatype Observation = Observation(endpoint: string, status: int, success: bool, visible: bool,
                                     acknowledgement: string, observedAt: int, popup: bool)

  const NO_OBSERVATION := Observation("", 0, false, false, "", 0, false)

  datatype Outcome = RuntimeDisabled | DuplicateOrUncertain | Blocked | Unconfirmed | EmployerConfirmed(evidenceRef: string)

  datatype Pc = Opened | Preparing | Reserved | Started | Submitting | Armed | Observed(what: Observation)
              | Finished(outcome: Outcome) | Crashed

  /** `started` and `submitCalled` are the driver's own flags; `inspectedAt` is when it read the final form. */
  datatype Run = Run(job: Job, pc: Pc, started: bool, submitCalled: bool, inspectedAt: int, boundary: B.State)

  /** A client of `record_before_dispatch`, between its binding check and its second transaction. */
  datatype Dispatcher = Idle | Bound(submitKey: string, executionId: string, proofKey: string) | Recorded(proofKey: string)

  datatype Owner = NoOne | ByRun(run: nat) | ByDispatcher(dispatcher: nat)

  /**
   `row` is the only shared state. The counters and `owner` are history: starts
   reported to a client, calls of `submit_once`, application POSTs let through,
   dispatch intents issued, and employer confirmations returned.
   */
  datatype State = State(row: Option<L.Row>, runs: map<nat, Run>, dispatchers: map<nat, Dispatcher>,
                         owner: Owner, starts: nat, submitCalls: nat, posts: nat, dispatches: nat, confirmations: nat)

  const INITIAL := State(None, map[], map[], NoOne, 0, 0, 0, 0, 0)

  datatype Action =
    | Launch(run: nat, job: Job, authorised: bool)
    | CheckIntent(run: nat, fault: L.Fault)
    | Drive(run: nat, call: B.Call)
    | PageRequest(run: nat, request: B.Request)
    | Reserve(run: nat, inspectedAt: int, checkedAt: int, now: L.Stamp, fault: L.Fault)
    | Start(run: nat, now: L.Stamp, fault: L.Fault)
    | CallSubmit(run: nat)
    | ArmSubmit(run: nat)
    | Observe(run: nat, what: Observation, clock: int)
    | Confirm(run: nat, now: L.Stamp, fault: L.Fault)
    | Raise(run: nat)
    | Crash(run: nat)
    | OtherClient(op: L.Op, fault: L.Fault)
    | BindDispatch(dispatcher: nat, submitKey: string, executionId: string, proofKey: string, fault: L.Fault)
    | RecordDispatch(dispatcher: nat, now: L.Stamp, fault: L.Fault)

  const REVIEW_WINDOW := 120 * 1_000_000

  function Stopped(run: Run): Run {
    run.(pc := Finished(if run.started then Unconfirmed else Blocked))
  }

  function Put(s: State, p: nat, run: Run): State {
    s.(runs := s.runs[p := run])
  }

  predicate At(s: State, p: nat, pc: Pc) {
    p in s.runs && s.runs[p].pc == pc
  }

  predicate Live(run: Run) {
    run.pc != Crashed && !run.pc.Finished?
  }

  function EvidenceOf(run: Run, what: Observation): L.ConfirmationEvidence {
    L.ConfirmationEvidence(run.job.ids.submitKey,
                           L.Evidence(L.AtsAcknowledgement, "evidence:sha256:" + what.acknowledgement),
                           L.Utc(what.observedAt), true, run.job.ids.executionId, run.job.ids.requisitionId)
  }

  /** The checks of the driver on what the page reported, including the boundary's own counters. */
  predicate Acceptable(run: Run, what: Observation, now: int) {
    && what.endpoint == run.job.config.applicationUrl
    && what.status in {200, 201}
    && what.success && what.visible
    && !what.popup && run.boundary.attempts == 1 && run.boundary.blocked == 0
    && L.IsEvidenceRef("evidence:sha256:" + what.acknowledgement)
    && run.inspectedAt <= what.observedAt <= now
  }

  function OnLaunch(s: State, p: nat, job: Job, authorised: bool): State {
    if p in s.runs || job.config.uploadUrl == job.config.applicationUrl then s
    else Put(s, p, Run(job, if authorised then Opened else Finished(RuntimeDisabled), false, false, 0, B.INITIAL))
  }

  function OnCheckIntent(s: State, p: nat, fault: L.Fault): State {
    if !At(s, p, Opened) then s
    else
      var run := s.runs[p];
      match L.ApplyHasIntent(s.row, fault).1
      case Flag(false) => Put(s, p, run.(pc := Preparing))
      case Flag(true) => Put(s, p, run.(pc := Finished(DuplicateOrUncertain)))
      case _ => Put(s, p, Stopped(run))
  }

  /** The driver opens or closes its upload window; a refused phase change is an exception. */
  function OnDrive(s: State, p: nat, call: B.Call): State {
    if !At(s, p, Preparing) || !(call.BeginUpload? || call.EndUpload?) then s
    else
      var (boundary, accepted) := B.Step(s.runs[p].job.config, s.runs[p].boundary, call);
      var run := s.runs[p].(boundary := boundary);
      Put(s, p, if accepted then run else Stopped(run))
  }

  function OnPageRequest(s: State, p: nat, r: B.Request): State {
    if p !in s.runs || s.runs[p].pc == Crashed then s
    else
      var run := s.runs[p];
      var (boundary, allowed) := B.OnRequest(run.job.config, run.boundary, r);
      Put(s, p, run.(boundary := boundary))
        .(posts := s.posts + if allowed && B.IsPostTo(r, run.job.config.applicationUrl) then 1 else 0)
  }

  function OnReserve(hash: string -> L.Digest, s: State, p: nat, inspectedAt: int, checkedAt: int, now: L.Stamp,
                     fault: L.Fault): State
  {
    if !At(s, p, Preparing) then s
    else
      var run := s.runs[p].(inspectedAt := inspectedAt);
      if !(0 <= checkedAt - inspectedAt <= REVIEW_WINDOW) then Put(s, p, Stopped(run))
      else
        var attempt := L.Attempt(run.job.ids, L.Utc(inspectedAt), true);
        var (row, reply) := L.ApplyReserve(hash, s.row, attempt, now, fault);
        Put(s, p, if reply == L.Flag(true) then run.(pc := Reserved) else Stopped(run)).(row := row)
  }

  function OnStart(hash: string -> L.Digest, s: State, p: nat, now: L.Stamp, fault: L.Fault): State {
    if !At(s, p, Reserved) then s
    else
      var run := s.runs[p];
      var (row, reply) := L.ApplyMarkStarted(hash, s.row, run.job.ids.submitKey, run.job.ids.executionId, now, fault);
      if reply == L.Done then
        Put(s, p, run.(pc := Started, started := true)).(row := row, owner := ByRun(p), starts := s.starts + 1)
      else
        Put(s, p, Stopped(run)).(row := row)
  }

  /** `submit_once` is entered; it gives up unless the boundary has seen nothing unreviewed. */
  function OnCallSubmit(s: State, p: nat): State {
    if !At(s, p, Started) then s
    else
      var run := s.runs[p];
      var called := s.(submitCalls := s.submitCalls + 1);
      if run.boundary.blocked == 0 && run.boundary.attempts == 0 then
        Put(called, p, run.(pc := Submitting, submitCalled := true))
      else
        Put(called, p, Stopped(run.(submitCalled := true)))
  }

  function OnArmSubmit(s: State, p: nat): State {
    if !At(s, p, Submitting) then s
    else
      var (boundary, accepted) := B.Step(s.runs[p].job.config, s.runs[p].boundary, B.BeginSubmit);
      var run := s.runs[p].(boundary := boundary);
      Put(s, p, if accepted then run.(pc := Armed) else Stopped(run))
  }

  function OnObserve(s: State, p: nat, what: Observation, now: int): State {
    if !At(s, p, Armed) then s
    else
      var run := s.runs[p];
      Put(s, p, if Acceptable(run, what, now) then run.(pc := Observed(what)) else Stopped(run))
  }

  function OnConfirm(hash: string -> L.Digest, s: State, p: nat, now: L.Stamp, fault: L.Fault): State {
    if p !in s.runs || !s.runs[p].pc.Observed? then s
    else
      var run := s.runs[p];
      var proof := EvidenceOf(run, run.pc.what);
      var (row, reply) := L.ApplyConfirm(hash, s.row, run.job.ids.submitKey, proof, now, fault);
      if reply == L.Flag(true) then
        Put(s, p, run.(pc := Finished(EmployerConfirmed(proof.evidence.ref))))
          .(row := row, confirmations := s.confirmations + 1)
      else
        Put(s, p, Stopped(run)).(row := row)
  }

  /** The binding check of `record_before_dispatch`: one snapshot transaction. */
  function OnBindDispatch(hash: string -> L.Digest, s: State, d: nat, submitKey: string, executionId: string,
                          proofKey: string, fault: L.Fault): State
  {
    if d in s.dispatchers && !s.dispatchers[d].Idle? then s
    else
      var reply := L.ApplySnapshot(s.row, fault).1;
      var bound := && reply.Seen? && reply.row.Some? && reply.row.value.status == L.Validated
                   && reply.row.value.ids.submitKey == hash(submitKey)
                   && reply.row.value.ids.executionId == hash(executionId)
                   && reply.row.value.ids.validationKey == hash(proofKey);
      s.(dispatchers := s.dispatchers[d := if bound then Bound(submitKey, executionId, proofKey) else Idle])
  }

  function OnRecordDispatch(hash: string -> L.Digest, s: State, d: nat, now: L.Stamp, fault: L.Fault): State {
    if d !in s.dispatchers || !s.dispatchers[d].Bound? then s
    else
      var b := s.dispatchers[d];
      var (row, reply) := L.ApplyMarkStarted(hash, s.row, b.submitKey, b.executionId, now, fault);
      if reply == L.Done then
        s.(row := row, dispatchers := s.dispatchers[d := Recorded(b.proofKey)], owner := ByDispatcher(d),
           starts := s.starts + 1, dispatches := s.dispatches + 1)
      else
        s.(row := row, dispatchers := s.dispatchers[d := Idle])
  }

  function Next(hash: string -> L.Digest, s: State, a: Action): State {
    match a
    case Launch(p, job, authorised) => OnLaunch(s, p, job, authorised)
    case CheckIntent(p, fault) => OnCheckIntent(s, p, fault)
    case Drive(p, call) => OnDrive(s, p, call)
    case PageRequest(p, r) => OnPageRequest(s, p, r)
    case Reserve(p, inspectedAt, checkedAt, now, fault) => OnReserve(hash, s, p, inspectedAt, checkedAt, now, fault)
    case Start(p, now, fault) => OnStart(hash, s, p, now, fault)
    case CallSubmit(p) => OnCallSubmit(s, p)
    case ArmSubmit(p) => OnArmSubmit(s, p)
    case Observe(p, what, clock) => OnObserve(s, p, what, clock)
    case Confirm(p, now, fault) => OnConfirm(hash, s, p, now, fault)
    case Raise(p) => if p in s.runs && Live(s.runs[p]) then Put(s, p, Stopped(s.runs[p])) else s
    case Crash(p) => if p in s.runs && Live(s.runs[p]) then Put(s, p, s.runs[p].(pc := Crashed)) else s
    case OtherClient(op, fault) => if op.MarkStarted? then s else s.(row := L.Apply(hash, s.row, op, fault).0)
    case BindDispatch(d, key, execution, proof, fault) => OnBindDispatch(hash, s, d, key, execution, proof, fault)
    case RecordDispatch(d, now, fault) => OnRecordDispatch(hash, s, d, now, fault)
  }

  function Execute(hash: string -> L.Digest, trace: seq<Action>): State {
    if trace == [] then INITIAL else Next(hash, Execute(hash, trace[..|trace| - 1]), trace[|trace| - 1])
  }

  // ----- The invariant

  predicate BoundaryOk(b: B.State) {
    && b.applicationsAllowed <= 1
    && (b.applicationsAllowed == 1 ==> b.submitBegun)
    && b.attempts <= b.applicationsAllowed + b.blocked
    && (b.attempts == 0 <==> b.phase != B.Closed)
    && (b.submitBegun ==> b.phase == B.Submit || b.phase == B.Closed)
    && (b.phase == B.Submit ==> b.submitBegun && b.applicationsAllowed == 0)
  }

  ghost predicate Carries(hash: string -> L.Digest, row: Option<L.Row>, ids: L.Identity) {
    row.Some? && row.value.ids == ids.Hashed(hash)
  }

  /** One run, against the shared row and the history. */
  ghost predicate RunOk(hash: string -> L.Digest, s: State, p: nat, run: Run) {
    && run.job.config.uploadUrl != run.job.config.applicationUrl
    && BoundaryOk(run.boundary)
    && (run.started ==> s.owner == ByRun(p) && Carries(hash, s.row, run.job.ids))
    && (run.submitCalled ==> run.started)
    && (run.boundary.submitBegun ==> run.submitCalled)
    && match run.pc
       case Opened => !run.started
       case Preparing => !run.started
       case Reserved => !run.started && Carries(hash, s.row, run.job.ids)
       case Started => run.started && !run.submitCalled
       case Submitting => run.submitCalled && !run.boundary.submitBegun
       case Armed => run.boundary.submitBegun
       case Observed(_) => run.boundary.applicationsAllowed == 1
       case Finished(EmployerConfirmed(ref)) =>
         && run.boundary.applicationsAllowed == 1
         && s.row.Some? && s.row.value.status == L.Confirmed && s.row.value.confirmation.Some?
         && s.row.value.confirmation.value.evidence.ref == ref
       case _ => true
  }

  ghost predicate DispatcherOk(hash: string -> L.Digest, s: State, d: nat, client: Dispatcher) {
    match client
    case Idle => true
    case Bound(submitKey, executionId, proofKey) =>
      && s.row.Some?
      && s.row.value.ids.submitKey == hash(submitKey)
      && s.row.value.ids.executionId == hash(executionId)
      && s.row.value.ids.validationKey == hash(proofKey)
    case Recorded(proofKey) =>
      s.owner == ByDispatcher(d) && s.row.Some? && s.row.value.ids.validationKey == hash(proofKey)
  }

  function OwnerRun(s: State): Option<Run> {
    match s.owner
    case ByRun(p) => if p in s.runs then Some(s.runs[p]) else None
    case _ => None
  }

  /** The history counters, in terms of the one run or client that owns the start. */
  ghost predicate CountersOk(s: State) {
    && s.starts == (if s.owner == NoOne then 0 else 1)
    && s.dispatches == (if s.owner.ByDispatcher? then 1 else 0)
    && (s.owner.ByRun? ==> s.owner.run in s.runs && s.runs[s.owner.run].started)
    && match OwnerRun(s)
       case None => s.submitCalls == 0 && s.posts == 0 && s.confirmations == 0
       case Some(run) =>
         && s.submitCalls == (if run.submitCalled then 1 else 0)
         && s.posts == run.boundary.applicationsAllowed
         && s.confirmations == (if run.pc.Finished? && run.pc.outcome.EmployerConfirmed? then 1 else 0)
  }

  ghost predicate Inv(hash: string -> L.Digest, s: State) {
    && L.SchemaOk(s.row)
    && (s.owner != NoOne ==> L.Rank(s.row) >= 2)
    && CountersOk(s)
    && (forall p | p in s.runs :: RunOk(hash, s, p, s.runs[p]))
    && (forall d | d in s.dispatchers :: DispatcherOk(hash, s, d, s.dispatchers[d]))
  }

  lemma BoundaryStepOk(c: B.Config, b: B.State, call: B.Call)
    requires c.uploadUrl != c.applicationUrl && BoundaryOk(b)
    ensures BoundaryOk(B.Step(c, b, call).0)
    ensures var (after, accepted) := B.Step(c, b, call);
            var isPost := call.Allows? && B.IsPostTo(call.request, c.applicationUrl);
            && after.applicationsAllowed == b.applicationsAllowed + (if accepted && isPost then 1 else 0)
            && (after.applicationsAllowed > b.applicationsAllowed ==> b.submitBegun)
            && (call != B.BeginSubmit ==> after.submitBegun == b.submitBegun)
  {
  }

  /** Moving the row forward disturbs nobody. */
  lemma RowAdvances(hash: string -> L.Digest, s: State, row: Option<L.Row>)
    requires Inv(hash, s) && L.SchemaOk(row) && L.Extends(s.row, row)
    ensures Inv(hash, s.(row := row))
  {
    var t := s.(row := row);
    forall p | p in t.runs
      ensures RunOk(hash, t, p, t.runs[p])
    {
      assert RunOk(hash, s, p, s.runs[p]);
    }
    forall d | d in t.dispatchers
      ensures DispatcherOk(hash, t, d, t.dispatchers[d])
    {
      assert DispatcherOk(hash, s, d, s.dispatchers[d]);
    }
  }

  /** What a step of one run adds to the history counters, when it does not become the owner. */
  ghost predicate Adds(s: State, p: nat, run: Run, calls: nat, posts: nat, confirmations: nat) {
    && (p in s.runs ==> (run.started == s.runs[p].started))
    && (p !in s.runs ==> !run.started)
    && (s.owner != ByRun(p) ==> calls == posts == confirmations == 0)
    && var was := if p in s.runs then s.runs[p] else run.(submitCalled := false, boundary := B.INITIAL);
       && calls == (if run.submitCalled then 1 else 0) - (if was.submitCalled then 1 else 0)
       && posts == run.boundary.applicationsAllowed - was.boundary.applicationsAllowed
       && confirmations == (if run.pc.Finished? && run.pc.outcome.EmployerConfirmed? then 1 else 0)
                           - (if was.pc.Finished? && was.pc.outcome.EmployerConfirmed? then 1 else 0)
  }

  function Counted(s: State, calls: nat, posts: nat, confirmations: nat): State {
    s.(submitCalls := s.submitCalls + calls, posts := s.posts + posts, confirmations := s.confirmations + confirmations)
  }

  lemma CountersAdvance(s: State, p: nat, run: Run, calls: nat, posts: nat, confirmations: nat)
    requires CountersOk(s) && Adds(s, p, run, calls, posts, confirmations)
    ensures CountersOk(Counted(Put(s, p, run), calls, posts, confirmations))
  {
  }

  /** Changing one run, which does not become the owner, disturbs nobody else. */
  lemma RunAdvances(hash: string -> L.Digest, s: State, p: nat, run: Run, calls: nat, posts: nat, confirmations: nat)
    requires Inv(hash, s) && RunOk(hash, s, p, run) && Adds(s, p, run, calls, posts, confirmations)
    ensures Inv(hash, Counted(Put(s, p, run), calls, posts, confirmations))
  {
    var t := Counted(Put(s, p, run), calls, posts, confirmations);
    CountersAdvance(s, p, run, calls, posts, confirmations);
    forall q | q in t.runs
      ensures RunOk(hash, t, q, t.runs[q])
    {
      if q != p {
        assert RunOk(hash, s, q, s.runs[q]);
      }
    }
    forall d | d in t.dispatchers
      ensures DispatcherOk(hash, t, d, t.dispatchers[d])
    {
      assert DispatcherOk(hash, s, d, s.dispatchers[d]);
    }
  }

  /** A ledger transaction of one run that leaves its flags and boundary alone. */
  lemma LedgerStep(hash: string -> L.Digest, s: State, p: nat, row: Option<L.Row>, run: Run)
    requires Inv(hash, s) && L.SchemaOk(row) && L.Extends(s.row, row)
    requires p in s.runs && RunOk(hash, s.(row := row), p, run)
    requires run.started == s.runs[p].started && run.submitCalled == s.runs[p].submitCalled
    requires run.boundary == s.runs[p].boundary
    requires !(run.pc.Finished? && run.pc.outcome.EmployerConfirmed?)
    requires !(s.runs[p].pc.Finished? && s.runs[p].pc.outcome.EmployerConfirmed?)
    ensures Inv(hash, Put(s, p, run).(row := row))
  {
    RowAdvances(hash, s, row);
    RunAdvances(hash, s.(row := row), p, run, 0, 0, 0);
  }

  lemma ReserveKeepsInv(hash: string -> L.Digest, s: State, p: nat, inspectedAt: int, checkedAt: int, now: L.Stamp,
                        fault: L.Fault)
    requires Inv(hash, s)
    ensures Inv(hash, OnReserve(hash, s, p, inspectedAt, checkedAt, now, fault))
  {
    if At(s, p, Preparing) {
      var run := s.runs[p].(inspectedAt := inspectedAt);
      assert RunOk(hash, s, p, s.runs[p]);
      if !(0 <= checkedAt - inspectedAt <= REVIEW_WINDOW) {
        RunAdvances(hash, s, p, Stopped(run), 0, 0, 0);
      } else {
        var attempt := L.Attempt(run.job.ids, L.Utc(inspectedAt), true);
        var row := L.ApplyReserve(hash, s.row, attempt, now, fault).0;
        L.ReserveEffect(hash, s.row, attempt, now, fault);
        if L.ApplyReserve(hash, s.row, attempt, now, fault).1 == L.Flag(true) {
          LedgerStep(hash, s, p, row, run.(pc := Reserved));
        } else {
          LedgerStep(hash, s, p, row, Stopped(run));
        }
      }
    }
  }

  /** Becoming the owner of the start: possible only while nobody owns it. */
  lemma StartKeepsInv(hash: string -> L.Digest, s: State, p: nat, now: L.Stamp, fault: L.Fault)
    requires Inv(hash, s)
    ensures Inv(hash, OnStart(hash, s, p, now, fault))
  {
    if At(s, p, Reserved) {
      var run := s.runs[p];
      assert RunOk(hash, s, p, run);
      var op := L.MarkStarted(run.job.ids.submitKey, run.job.ids.executionId, now);
      L.ApplyKeepsSchema(hash, s.row, op, fault);
      var (row, reply) := L.Apply(hash, s.row, op, fault);
      RowAdvances(hash, s, row);
      if reply == L.Done {
        var t := OnStart(hash, s, p, now, fault);
        OwnershipTaken(hash, s, t);
        assert RunOk(hash, t, p, t.runs[p]);
      } else {
        RunAdvances(hash, s.(row := row), p, Stopped(run), 0, 0, 0);
      }
    }
  }

  /** While the row is merely Validated nobody has started, so nobody is disturbed by a new owner. */
  lemma OwnershipTaken(hash: string -> L.Digest, s: State, t: State)
    requires Inv(hash, s) && L.Rank(s.row) == 1
    requires L.Extends(s.row, t.row) && L.SchemaOk(t.row)
    ensures s.owner == NoOne && s.starts == s.submitCalls == s.posts == s.confirmations == s.dispatches == 0
    ensures forall p | p in s.runs :: !s.runs[p].started && RunOk(hash, t, p, s.runs[p])
    ensures forall d | d in s.dispatchers :: !s.dispatchers[d].Recorded? && DispatcherOk(hash, t, d, s.dispatchers[d])
  {
    forall p | p in s.runs
      ensures !s.runs[p].started && RunOk(hash, t, p, s.runs[p])
    {
      assert RunOk(hash, s, p, s.runs[p]);
    }
    forall d | d in s.dispatchers
      ensures !s.dispatchers[d].Recorded? && DispatcherOk(hash, t, d, s.dispatchers[d])
    {
      assert DispatcherOk(hash, s, d, s.dispatchers[d]);
    }
  }

  lemma ConfirmKeepsInv(hash: string -> L.Digest, s: State, p: nat, now: L.Stamp, fault: L.Fault)
    requires Inv(hash, s)
    ensures Inv(hash, OnConfirm(hash, s, p, now, fault))
  {
    if p in s.runs && s.runs[p].pc.Observed? {
      var run := s.runs[p];
      assert RunOk(hash, s, p, run);
      var proof := EvidenceOf(run, run.pc.what);
      L.ConfirmEffect(hash, s.row, run.job.ids.submitKey, proof, now, fault);
      var (row, reply) := L.ApplyConfirm(hash, s.row, run.job.ids.submitKey, proof, now, fault);
      if reply == L.Flag(true) {
        RowAdvances(hash, s, row);
        var after := run.(pc := Finished(EmployerConfirmed(proof.evidence.ref)));
        RunAdvances(hash, s.(row := row), p, after, 0, 0, 1);
      } else {
        LedgerStep(hash, s, p, row, Stopped(run));
      }
    }
  }

  /** The row moves on, one client alone changes, and no start is counted. */
  lemma DispatchUnanswered(hash: string -> L.Digest, s: State, d: nat, row: Option<L.Row>, t: State)
    requires Inv(hash, s) && Inv(hash, s.(row := row)) && d in s.dispatchers
    requires t.dispatchers.Keys == s.dispatchers.Keys && t == s.(row := row, dispatchers := t.dispatchers)
    requires forall e | e in t.dispatchers && e != d :: t.dispatchers[e] == s.dispatchers[e]
    requires DispatcherOk(hash, t, d, t.dispatchers[d])
    ensures Inv(hash, t)
  {
    forall p | p in t.runs
      ensures RunOk(hash, t, p, t.runs[p])
    {
      assert RunOk(hash, s.(row := row), p, s.runs[p]);
    }
    forall e | e in t.dispatchers
      ensures DispatcherOk(hash, t, e, t.dispatchers[e])
    {
      assert e != d ==> DispatcherOk(hash, s.(row := row), e, s.dispatchers[e]);
    }
  }

  lemma DispatchKeepsInv(hash: string -> L.Digest, s: State, d: nat, now: L.Stamp, fault: L.Fault)
    requires Inv(hash, s)
    ensures Inv(hash, OnRecordDispatch(hash, s, d, now, fault))
  {
    if d in s.dispatchers && s.dispatchers[d].Bound? {
      var b := s.dispatchers[d];
      assert DispatcherOk(hash, s, d, b);
      var op := L.MarkStarted(b.submitKey, b.executionId, now);
      L.ApplyKeepsSchema(hash, s.row, op, fault);
      var (row, reply) := L.Apply(hash, s.row, op, fault);
      RowAdvances(hash, s, row);
      if reply == L.Done {
        OwnershipTaken(hash, s, OnRecordDispatch(hash, s, d, now, fault));
      } else {
        DispatchUnanswered(hash, s, d, row, OnRecordDispatch(hash, s, d, now, fault));
      }
    }
  }

  /** A step of one run that touches neither the ledger nor the counters. */
  lemma QuietStep(hash: string -> L.Digest, s: State, p: nat, run: Run)
    requires Inv(hash, s) && p in s.runs && RunOk(hash, s, p, run)
    requires run.started == s.runs[p].started && run.submitCalled == s.runs[p].submitCalled
    requires run.boundary.applicationsAllowed == s.runs[p].boundary.applicationsAllowed
    requires !(run.pc.Finished? && run.pc.outcome.EmployerConfirmed?)
    requires !(s.runs[p].pc.Finished? && s.runs[p].pc.outcome.EmployerConfirmed?)
    ensures Inv(hash, Put(s, p, run))
  {
    RunAdvances(hash, s, p, run, 0, 0, 0);
  }

  lemma CheckIntentKeepsInv(hash: string -> L.Digest, s: State, p: nat, fault: L.Fault)
    requires Inv(hash, s)
    ensures Inv(hash, OnCheckIntent(s, p, fault))
  {
    if At(s, p, Opened) {
      assert RunOk(hash, s, p, s.runs[p]);
      QuietStep(hash, s, p, OnCheckIntent(s, p, fault).runs[p]);
    }
  }

  lemma DriveKeepsInv(hash: string -> L.Digest, s: State, p: nat, call: B.Call)
    requires Inv(hash, s)
    ensures Inv(hash, OnDrive(s, p, call))
  {
    if At(s, p, Preparing) && (call.BeginUpload? || call.EndUpload?) {
      assert RunOk(hash, s, p, s.runs[p]);
      BoundaryStepOk(s.runs[p].job.config, s.runs[p].boundary, call);
      QuietStep(hash, s, p, OnDrive(s, p, call).runs[p]);
    }
  }

  lemma CallSubmitKeepsInv(hash: string -> L.Digest, s: State, p: nat)
    requires Inv(hash, s)
    ensures Inv(hash, OnCallSubmit(s, p))
  {
    if p in s.runs && s.runs[p].pc == Started {
      assert RunOk(hash, s, p, s.runs[p]);
      RunAdvances(hash, s, p, OnCallSubmit(s, p).runs[p], 1, 0, 0);
    }
  }

  lemma SubmitStepsKeepInv(hash: string -> L.Digest, s: State, p: nat, what: Observation, clock: int)
    requires Inv(hash, s)
    ensures Inv(hash, OnCallSubmit(s, p)) && Inv(hash, OnArmSubmit(s, p)) && Inv(hash, OnObserve(s, p, what, clock))
  {
    CallSubmitKeepsInv(hash, s, p);
    if p in s.runs {
      var run := s.runs[p];
      assert RunOk(hash, s, p, run);
      if run.pc == Submitting {
        BoundaryStepOk(run.job.config, run.boundary, B.BeginSubmit);
        QuietStep(hash, s, p, OnArmSubmit(s, p).runs[p]);
      }
      if run.pc == Armed {
        QuietStep(hash, s, p, OnObserve(s, p, what, clock).runs[p]);
      }
    }
  }

  lemma StoppingKeepsInv(hash: string -> L.Digest, s: State, p: nat)
    requires Inv(hash, s) && p in s.runs && Live(s.runs[p])
    ensures Inv(hash, Put(s, p, Stopped(s.runs[p]))) && Inv(hash, Put(s, p, s.runs[p].(pc := Crashed)))
  {
    assert RunOk(hash, s, p, s.runs[p]);
    QuietStep(hash, s, p, Stopped(s.runs[p]));
    QuietStep(hash, s, p, s.runs[p].(pc := Crashed));
  }

  lemma LaunchKeepsInv(hash: string -> L.Digest, s: State, p: nat, job: Job, authorised: bool)
    requires Inv(hash, s)
    ensures Inv(hash, OnLaunch(s, p, job, authorised))
  {
    if p !in s.runs && job.config.uploadUrl != job.config.applicationUrl {
      RunAdvances(hash, s, p, OnLaunch(s, p, job, authorised).runs[p], 0, 0, 0);
    }
  }

  lemma OtherClientKeepsInv(hash: string -> L.Digest, s: State, op: L.Op, fault: L.Fault)
    requires Inv(hash, s)
    ensures Inv(hash, s.(row := L.Apply(hash, s.row, op, fault).0)) || op.MarkStarted?
  {
    if !op.MarkStarted? {
      L.ApplyKeepsSchema(hash, s.row, op, fault);
      RowAdvances(hash, s, L.Apply(hash, s.row, op, fault).0);
    }
  }

  lemma NextKeepsInv(hash: string -> L.Digest, s: State, a: Action)
    requires Inv(hash, s)
    ensures Inv(hash, Next(hash, s, a))
  {
    match a
    case Launch(p, job, authorised) => LaunchKeepsInv(hash, s, p, job, authorised);
    case PageRequest(p, r) => PageRequestKeepsInv(hash, s, p, r);
    case Reserve(p, inspectedAt, checkedAt, now, fault) =>
      ReserveKeepsInv(hash, s, p, inspectedAt, checkedAt, now, fault);
    case Start(p, now, fault) => StartKeepsInv(hash, s, p, now, fault);
    case Confirm(p, now, fault) => ConfirmKeepsInv(hash, s, p, now, fault);
    case OtherClient(op, fault) => OtherClientKeepsInv(hash, s, op, fault);
    case BindDispatch(d, key, execution, proof, fault) =>
      BindKeepsInv(hash, s, d, key, execution, proof, fault);
    case RecordDispatch(d, now, fault) => DispatchKeepsInv(hash, s, d, now, fault);
    case CheckIntent(p, fault) => CheckIntentKeepsInv(hash, s, p, fault);
    case Drive(p, call) => DriveKeepsInv(hash, s, p, call);
    case CallSubmit(p) => SubmitStepsKeepInv(hash, s, p, NO_OBSERVATION, 0);
    case ArmSubmit(p) => SubmitStepsKeepInv(hash, s, p, NO_OBSERVATION, 0);
    case Observe(p, what, clock) => SubmitStepsKeepInv(hash, s, p, what, clock);
    case Raise(p) => if p in s.runs && Live(s.runs[p]) { StoppingKeepsInv(hash, s, p); }
    case Crash(p) => if p in s.runs && Live(s.runs[p]) { StoppingKeepsInv(hash, s, p); }
  }

  /** A request changes the boundary of one run, and a run's clause with it. */
  lemma RequestKeepsRun(hash: string -> L.Digest, s: State, p: nat, r: B.Request)
    requires p in s.runs && RunOk(hash, s, p, s.runs[p])
    ensures var run := s.runs[p]; var (boundary, allowed) := B.OnRequest(run.job.config, run.boundary, r);
            var passed := if allowed && B.IsPostTo(r, run.job.config.applicationUrl) then 1 else 0;
            && RunOk(hash, s, p, run.(boundary := boundary))
            && boundary.applicationsAllowed == run.boundary.applicationsAllowed + passed
            && (passed == 1 ==> run.started)
  {
    BoundaryStepOk(s.runs[p].job.config, s.runs[p].boundary, B.Allows(r));
  }

  lemma PageRequestKeepsInv(hash: string -> L.Digest, s: State, p: nat, r: B.Request)
    requires Inv(hash, s)
    ensures Inv(hash, OnPageRequest(s, p, r))
  {
    if p in s.runs && s.runs[p].pc != Crashed {
      var run := s.runs[p];
      assert RunOk(hash, s, p, run);
      RequestKeepsRun(hash, s, p, r);
      var (boundary, allowed) := B.OnRequest(run.job.config, run.boundary, r);
      var passed := if allowed && B.IsPostTo(r, run.job.config.applicationUrl) then 1 else 0;
      RunAdvances(hash, s, p, run.(boundary := boundary), 0, passed, 0);
    }
  }

  lemma BindKeepsInv(hash: string -> L.Digest, s: State, d: nat, submitKey: string, executionId: string,
                     proofKey: string, fault: L.Fault)
    requires Inv(hash, s)
    ensures Inv(hash, OnBindDispatch(hash, s, d, submitKey, executionId, proofKey, fault))
  {
    var t := OnBindDispatch(hash, s, d, submitKey, executionId, proofKey, fault);
    forall p | p in t.runs
      ensures RunOk(hash, t, p, t.runs[p])
    {
      assert RunOk(hash, s, p, s.runs[p]);
    }
    forall e | e in t.dispatchers
      ensures DispatcherOk(hash, t, e, t.dispatchers[e])
    {
      assert e in s.dispatchers ==> DispatcherOk(hash, s, e, s.dispatchers[e]);
    }
  }

  lemma {:induction false} ReachableInv(hash: string -> L.Digest, trace: seq<Action>)
    ensures Inv(hash, Execute(hash, trace))
  {
    if trace != [] {
      ReachableInv(hash, trace[..|trace| - 1]);
      NextKeepsInv(hash, Execute(hash, trace[..|trace| - 1]), trace[|trace| - 1]);
    }
  }

  // ----- The guarantees

  /**
   Whatever the number of runs, pages, clients, crashes and lost reports: at most
   one start is ever reported, at most one `submit_once` call is made, at most
   one application POST is let through over all boundaries together, and at most
   one run reports a confirmed employer; each of these needs the one before it.
   A start given to a dispatching client leaves none for the runs.
   */
  lemma {:induction false} AtMostOneSubmission(hash: string -> L.Digest, trace: seq<Action>)
    ensures var s := Execute(hash, trace);
            && s.confirmations <= s.posts <= s.submitCalls
            && s.submitCalls + s.dispatches <= s.starts <= 1
  {
    ReachableInv(hash, trace);
    var s := Execute(hash, trace);
    if s.owner.ByRun? {
      assert RunOk(hash, s, s.owner.run, s.runs[s.owner.run]);
    }
  }

  lemma OnlySubmitAndPageCount(hash: string -> L.Digest, s: State, a: Action)
    requires !a.CallSubmit? && !a.PageRequest?
    ensures Next(hash, s, a).submitCalls == s.submitCalls && Next(hash, s, a).posts == s.posts
  {
  }

  lemma OnlyRecordingDispatches(hash: string -> L.Digest, s: State, a: Action)
    requires !a.RecordDispatch?
    ensures Next(hash, s, a).dispatches == s.dispatches
  {
  }

  /**
   By the time `submit_once` is called or an application POST passes, the row
   already records the start and carries all nine identities of that very run.
   */
  lemma {:induction false} IntentPrecedesEffect(hash: string -> L.Digest, trace: seq<Action>, a: Action)
    ensures var s := Execute(hash, trace); var t := Next(hash, s, a);
            t.submitCalls > s.submitCalls || t.posts > s.posts ==>
              && (a.CallSubmit? || a.PageRequest?) && a.run in s.runs
              && s.row.Some? && s.row.value.status != L.Validated
              && s.row.value.ids == s.runs[a.run].job.ids.Hashed(hash)
  {
    ReachableInv(hash, trace);
    var s := Execute(hash, trace);
    if a.CallSubmit? || a.PageRequest? {
      EffectNeedsStart(hash, s, a);
    } else {
      OnlySubmitAndPageCount(hash, s, a);
    }
  }

  lemma EffectNeedsStart(hash: string -> L.Digest, s: State, a: Action)
    requires Inv(hash, s) && (a.CallSubmit? || a.PageRequest?)
    ensures var t := if a.CallSubmit? then OnCallSubmit(s, a.run) else OnPageRequest(s, a.run, a.request);
            t.submitCalls > s.submitCalls || t.posts > s.posts ==>
              && a.run in s.runs && s.row.Some? && s.row.value.status != L.Validated
              && s.row.value.ids == s.runs[a.run].job.ids.Hashed(hash)
  {
    if a.run in s.runs {
      var run := s.runs[a.run];
      assert RunOk(hash, s, a.run, run);
      if a.PageRequest? {
        BoundaryStepOk(run.job.config, run.boundary, B.Allows(a.request));
      }
    }
  }

  lemma FinishedStays(hash: string -> L.Digest, s: State, a: Action, p: nat)
    requires p in s.runs && s.runs[p].pc.Finished?
    ensures var t := Next(hash, s, a); p in t.runs && t.runs[p].pc == s.runs[p].pc && t.runs[p].job == s.runs[p].job
  {
  }

  /** An outcome, once returned, is never revised. */
  lemma {:induction false} FinishedIsFinal(hash: string -> L.Digest, trace: seq<Action>, more: seq<Action>, p: nat)
    requires p in Execute(hash, trace).runs && Execute(hash, trace).runs[p].pc.Finished?
    ensures var s, t := Execute(hash, trace), Execute(hash, trace + more);
            p in t.runs && t.runs[p].pc == s.runs[p].pc && t.runs[p].job == s.runs[p].job
  {
    if more == [] {
      assert trace + more == trace;
    } else {
      var m := |more| - 1;
      FinishedIsFinal(hash, trace, more[..m], p);
      assert (trace + more)[..|trace + more| - 1] == trace + more[..m];
      FinishedStays(hash, Execute(hash, trace + more[..m]), more[m], p);
    }
  }

  /**
   Once a run has reported a confirmed employer then, at that time and after any
   continuation: exactly one POST has passed its boundary, the ledger is
   Confirmed with its identities and its evidence, and no other run reports one.
   */
  lemma {:induction false} ConfirmedRunIsBacked(hash: string -> L.Digest, trace: seq<Action>, more: seq<Action>, p: nat,
                                                ref: string)
    requires At(Execute(hash, trace), p, Finished(EmployerConfirmed(ref)))
    ensures var t := Execute(hash, trace + more);
            && At(t, p, Finished(EmployerConfirmed(ref))) && t.runs[p].job == Execute(hash, trace).runs[p].job
            && t.runs[p].boundary.applicationsAllowed == 1 && t.runs[p].started
            && t.row.Some? && t.row.value.status == L.Confirmed && t.row.value.confirmation.Some?
            && t.row.value.ids == t.runs[p].job.ids.Hashed(hash)
            && t.row.value.confirmation.value.evidence.ref == ref
            && (forall q, other :: At(t, q, Finished(EmployerConfirmed(other))) ==> q == p)
  {
    FinishedIsFinal(hash, trace, more, p);
    ReachableInv(hash, trace + more);
    var t := Execute(hash, trace + more);
    assert RunOk(hash, t, p, t.runs[p]);
    forall q, other | At(t, q, Finished(EmployerConfirmed(other)))
      ensures q == p
    {
      assert RunOk(hash, t, q, t.runs[q]);
    }
  }

  predicate Holding(run: Run) {
    run.pc == Reserved || run.started
  }

  predicate ByLedger(a: Action) {
    a.CheckIntent? || a.Reserve? || a.Start? || a.Confirm?
  }

  /** Who holds the reservation held it before, or was granted it by this step. */
  ghost predicate HeldOrGranted(hash: string -> L.Digest, s: State, a: Action, p: nat) {
    && p in s.runs && p in Next(hash, s, a).runs && Next(hash, s, a).runs[p].job == s.runs[p].job
    && (Holding(s.runs[p])
        || (a.Reserve? && L.ApplyReserve(hash, s.row, L.Attempt(s.runs[p].job.ids, L.Utc(a.inspectedAt), true),
                                         a.now, a.fault).1 == L.Flag(true)))
  }

  lemma HoldingByLedger(hash: string -> L.Digest, s: State, a: Action, p: nat)
    requires ByLedger(a) && p in Next(hash, s, a).runs && Holding(Next(hash, s, a).runs[p])
    ensures HeldOrGranted(hash, s, a, p)
  {
  }

  lemma HoldingOtherwise(hash: string -> L.Digest, s: State, a: Action, p: nat)
    requires !ByLedger(a) && p in Next(hash, s, a).runs && Holding(Next(hash, s, a).runs[p])
    ensures HeldOrGranted(hash, s, a, p)
  {
  }

  /** A run that got its reservation was given references the ledger accepts. */
  ghost predicate ReferencesAccepted(s: State) {
    forall p | p in s.runs && Holding(s.runs[p]) :: s.runs[p].job.ids.AllOpaque()
  }

  lemma NextKeepsReferences(hash: string -> L.Digest, s: State, a: Action)
    requires L.SchemaOk(s.row) && ReferencesAccepted(s)
    ensures ReferencesAccepted(Next(hash, s, a))
  {
    var t := Next(hash, s, a);
    forall p | p in t.runs && Holding(t.runs[p])
      ensures t.runs[p].job.ids.AllOpaque()
    {
      if ByLedger(a) {
        HoldingByLedger(hash, s, a, p);
      } else {
        HoldingOtherwise(hash, s, a, p);
      }
      if !Holding(s.runs[p]) {
        L.ReserveEffect(hash, s.row, L.Attempt(s.runs[p].job.ids, L.Utc(a.inspectedAt), true), a.now, a.fault);
      }
    }
  }

  lemma {:induction false} ReachableReferences(hash: string -> L.Digest, trace: seq<Action>)
    ensures ReferencesAccepted(Execute(hash, trace))
  {
    if trace != [] {
      var n := |trace| - 1;
      ReachableReferences(hash, trace[..n]);
      ReachableInv(hash, trace[..n]);
      NextKeepsReferences(hash, Execute(hash, trace[..n]), trace[n]);
    }
  }

  lemma ReserveExtendsRow(hash: string -> L.Digest, s: State, a: Action)
    requires L.SchemaOk(s.row) && a.Reserve?
    ensures L.Extends(s.row, Next(hash, s, a).row)
  {
    if At(s, a.run, Preparing) {
      L.ReserveEffect(hash, s.row, L.Attempt(s.runs[a.run].job.ids, L.Utc(a.inspectedAt), true), a.now, a.fault);
    }
  }

  lemma NextExtendsRow(hash: string -> L.Digest, s: State, a: Action)
    requires L.SchemaOk(s.row)
    ensures L.Extends(s.row, Next(hash, s, a).row)
  {
    match a
    case Reserve(p, inspectedAt, _, now, fault) => ReserveExtendsRow(hash, s, a);
    case Start(p, now, fault) =>
      if At(s, p, Reserved) {
        var ids := s.runs[p].job.ids;
        L.ApplyKeepsSchema(hash, s.row, L.MarkStarted(ids.submitKey, ids.executionId, now), fault);
      }
    case Confirm(p, now, fault) =>
      if p in s.runs && s.runs[p].pc.Observed? {
        var run := s.runs[p];
        L.ConfirmEffect(hash, s.row, run.job.ids.submitKey, EvidenceOf(run, run.pc.what), now, fault);
      }
    case OtherClient(op, fault) => L.ApplyKeepsSchema(hash, s.row, op, fault);
    case RecordDispatch(d, now, fault) =>
      if d in s.dispatchers && s.dispatchers[d].Bound? {
        var b := s.dispatchers[d];
        L.ApplyKeepsSchema(hash, s.row, L.MarkStarted(b.submitKey, b.executionId, now), fault);
      }
    case _ =>
  }

  lemma {:induction false} ExecuteExtendsRow(hash: string -> L.Digest, trace: seq<Action>)
    requires trace != []
    ensures L.Extends(Execute(hash, trace[..|trace| - 1]).row, Execute(hash, trace).row)
  {
    var n := |trace| - 1;
    ReachableInv(hash, trace[..n]);
    NextExtendsRow(hash, Execute(hash, trace[..n]), trace[n]);
  }

  /** Extension step by step is extension throughout. */
  lemma {:induction false} ChainExtends(rows: nat -> Option<L.Row>, first: nat, last: nat)
    requires first <= last && forall k: nat | first <= k < last :: L.Extends(rows(k), rows(k + 1))
    ensures L.Extends(rows(first), rows(last))
    decreases last
  {
    if first < last {
      ChainExtends(rows, first, last - 1);
      assert L.Extends(rows(last - 1), rows(last - 1 + 1));
      L.ExtendsIsTransitive(rows(first), rows(last - 1), rows(last));
    }
  }

  /** The row after each prefix of an execution. */
  function RowsOf(hash: string -> L.Digest, trace: seq<Action>): nat -> Option<L.Row> {
    (k: nat) => if k <= |trace| then Execute(hash, trace[..k]).row else None
  }

  lemma {:induction false} RowsExtend(hash: string -> L.Digest, trace: seq<Action>, k: nat)
    requires k < |trace|
    ensures L.Extends(RowsOf(hash, trace)(k), RowsOf(hash, trace)(k + 1))
  {
    assert trace[..k + 1][..k] == trace[..k];
    ExecuteExtendsRow(hash, trace[..k + 1]);
  }

  lemma {:induction false} PrefixRowExtends(hash: string -> L.Digest, trace: seq<Action>, start: nat)
    requires start <= |trace|
    ensures L.Extends(Execute(hash, trace[..start]).row, Execute(hash, trace).row)
  {
    var rows := RowsOf(hash, trace);
    forall k: nat | start <= k < |trace|
      ensures L.Extends(rows(k), rows(k + 1))
    {
      RowsExtend(hash, trace, k);
    }
    ChainExtends(rows, start, |trace|);
    assert rows(start) == Execute(hash, trace[..start]).row;
    assert trace[..|trace|] == trace;
  }

  /** The shared record only ever grows, so "Confirmed" with its evidence, once there, is there forever. */
  lemma {:induction false} RecordNeverChanges(hash: string -> L.Digest, trace: seq<Action>, more: seq<Action>)
    ensures L.Extends(Execute(hash, trace).row, Execute(hash, trace + more).row)
  {
    assert (trace + more)[..|trace|] == trace;
    PrefixRowExtends(hash, trace + more, |trace|);
  }

  /**
   The binding check and the start of a dispatching client are two
   transactions, and anything may happen between them; yet when the intent is
   issued the row still carries the digest of the proof that client checked.
   */
  lemma {:induction false} DispatchIsBound(hash: string -> L.Digest, trace: seq<Action>, a: Action)
    ensures var s := Execute(hash, trace); var t := Next(hash, s, a);
            t.dispatches > s.dispatches ==>
              && a.RecordDispatch? && a.dispatcher in s.dispatchers && s.dispatchers[a.dispatcher].Bound?
              && s.row.Some? && s.row.value.status == L.Validated
              && s.row.value.ids.validationKey == hash(s.dispatchers[a.dispatcher].proofKey)
              && t.row.value.ids == s.row.value.ids && t.row.value.status == L.SubmittedUnconfirmed
  {
    ReachableInv(hash, trace);
    var s := Execute(hash, trace);
    if a.RecordDispatch? {
      if a.dispatcher in s.dispatchers && s.dispatchers[a.dispatcher].Bound? {
        assert DispatcherOk(hash, s, a.dispatcher, s.dispatchers[a.dispatcher]);
      }
    } else {
      OnlyRecordingDispatches(hash, s, a);
    }
  }

  /**
   The guarantees are not empty: with no fault and a page that answers, a run
   does reach a confirmed employer through exactly one POST.
   */
  lemma ACleanRunConfirms(hash: string -> L.Digest, job: Job, acknowledgement: string)
    requires job.ids.AllOpaque() && job.config.uploadUrl != job.config.applicationUrl
    requires L.IsEvidenceRef("evidence:sha256:" + acknowledgement)
    ensures exists trace ::
              At(Execute(hash, trace), 0, Finished(EmployerConfirmed("evidence:sha256:" + acknowledgement)))
              && Execute(hash, trace).posts == 1
  {
    var post := B.Request(B.Str("POST"), B.Str(job.config.applicationUrl), "fetch", B.Bool(false));
    var what := Observation(job.config.applicationUrl, 201, true, true, acknowledgement, 0, false);
    var ready, t4 := CleanIntent(hash, job);
    CleanSubmit(hash, ready, job, post, what);
    var t9 := SubmitTrace(hash, t4, post, what);
  }

  /** From nothing to a recorded start. */
  lemma CleanIntent(hash: string -> L.Digest, job: Job) returns (s: State, trace: seq<Action>)
    requires job.ids.AllOpaque() && job.config.uploadUrl != job.config.applicationUrl
    ensures s == Execute(hash, trace)
    ensures At(s, 0, Started) && s.runs[0] == Run(job, Started, true, false, 0, B.INITIAL) && s.posts == 0
    ensures s.row == Some(L.Row(job.ids.Hashed(hash), L.SubmittedUnconfirmed, 0, 0, Some(0), None))
  {
    var now := L.Utc(0);
    var s2 := OnCheckIntent(OnLaunch(INITIAL, 0, job, true), 0, L.NoFault);
    assert s2.runs[0].pc == Preparing;
    var s3 := OnReserve(hash, s2, 0, 0, 0, now, L.NoFault);
    assert s3.runs[0].pc == Reserved;
    s := OnStart(hash, s3, 0, now, L.NoFault);
    trace := ExecuteAppends(hash, [], Launch(0, job, true));
    trace := ExecuteAppends(hash, trace, CheckIntent(0, L.NoFault));
    trace := ExecuteAppends(hash, trace, Reserve(0, 0, 0, now, L.NoFault));
    trace := ExecuteAppends(hash, trace, Start(0, now, L.NoFault));
  }

  lemma SubmitTrace(hash: string -> L.Digest, trace: seq<Action>, post: B.Request, what: Observation)
    returns (longer: seq<Action>)
    ensures var armed := OnArmSubmit(OnCallSubmit(Execute(hash, trace), 0), 0);
            Execute(hash, longer)
            == OnConfirm(hash, OnObserve(OnPageRequest(armed, 0, post), 0, what, 0), 0, L.Utc(0), L.NoFault)
  {
    longer := ExecuteAppends(hash, trace, CallSubmit(0));
    longer := ExecuteAppends(hash, longer, ArmSubmit(0));
    longer := ExecuteAppends(hash, longer, PageRequest(0, post));
    longer := ExecuteAppends(hash, longer, Observe(0, what, 0));
    longer := ExecuteAppends(hash, longer, Confirm(0, L.Utc(0), L.NoFault));
  }

  /** A started run that has done nothing else yet. */
  predicate JustStarted(hash: string -> L.Digest, s: State, job: Job) {
    && At(s, 0, Started) && s.posts == 0 && s.runs[0] == Run(job, Started, true, false, 0, B.INITIAL)
    && job.config.uploadUrl != job.config.applicationUrl
    && s.row == Some(L.Row(job.ids.Hashed(hash), L.SubmittedUnconfirmed, 0, 0, Some(0), None))
  }

  const SENT := B.State(B.Closed, false, true, 0, 1, 1, 0)

  /** Armed, and the one POST sent. */
  lemma CleanPost(hash: string -> L.Digest, s: State, job: Job, post: B.Request)
    requires JustStarted(hash, s, job)
    requires post == B.Request(B.Str("POST"), B.Str(job.config.applicationUrl), "fetch", B.Bool(false))
    ensures var sent := OnPageRequest(OnArmSubmit(OnCallSubmit(s, 0), 0), 0, post);
            && 0 in sent.runs && sent.runs[0] == Run(job, Armed, true, true, 0, SENT)
            && sent.posts == 1 && sent.row == s.row
  {
    var called := OnCallSubmit(s, 0);
    assert called.runs[0] == Run(job, Submitting, true, true, 0, B.INITIAL);
    var armed := OnArmSubmit(called, 0);
    assert armed.runs[0] == Run(job, Armed, true, true, 0, B.INITIAL.(submitBegun := true, phase := B.Submit));
  }

  /** From the recorded start to the confirmation. */
  lemma CleanSubmit(hash: string -> L.Digest, s: State, job: Job, post: B.Request, what: Observation)
    requires JustStarted(hash, s, job) && job.ids.AllOpaque()
    requires post == B.Request(B.Str("POST"), B.Str(job.config.applicationUrl), "fetch", B.Bool(false))
    requires what == Observation(job.config.applicationUrl, 201, true, true, what.acknowledgement, 0, false)
    requires L.IsEvidenceRef("evidence:sha256:" + what.acknowledgement)
    ensures var armed := OnArmSubmit(OnCallSubmit(s, 0), 0);
            var end := OnConfirm(hash, OnObserve(OnPageRequest(armed, 0, post), 0, what, 0), 0, L.Utc(0), L.NoFault);
            && At(end, 0, Finished(EmployerConfirmed("evidence:sha256:" + what.acknowledgement)))
            && end.posts == 1
  {
    CleanPost(hash, s, job, post);
    var seen := OnObserve(OnPageRequest(OnArmSubmit(OnCallSubmit(s, 0), 0), 0, post), 0, what, 0);
    assert seen.runs[0] == Run(job, Observed(what), true, true, 0, SENT);
  }

  lemma ExecuteAppends(hash: string -> L.Digest, trace: seq<Action>, a: Action) returns (longer: seq<Action>)
    ensures longer == trace + [a]
    ensures Execute(hash, longer) == Next(hash, Execute(hash, trace), a)
  {
    longer := trace + [a];
    assert longer[..|trace|] == trace;
  }
}
