/**
 One fenced browser lifecycle: open, inspect, prepare once, close. Every browser
 call is a `Look`: what the page shows then, and the network events it lets
 loose. `Step` is one call on the session, including the calls that the
 executor makes while preparing; the object below runs the same steps.
 */
module FencedSession {
  import opened Wrappers

  // ----- The network fence

  /** A request, with its URL already parsed against the session's target. */
  datatype Request = Request(verb: string, parses: bool, plain: bool, sameOrigin: bool, exactTarget: bool,
                             hasQuery: bool, resourceType: string, navigation: bool)

  /** Something the page starts: a request, or a socket or extra page, which are always denied. */
  datatype NetworkEvent = Asks(request: Request) | OpensSocket | OpensPage

  datatype Fence = Fence(fixture: bool, preparing: bool, blocked: bool)

  const STATIC_TYPES: set<string> := {"script", "stylesheet", "image", "font", "media"}

  predicate Allowed(f: Fence, r: Request) {
    && r.parses && !f.fixture && !f.preparing
    && (r.verb == "GET" || r.verb == "HEAD")
    && r.plain && r.sameOrigin
    && if r.navigation then r.exactTarget && r.resourceType == "document" else !r.hasQuery && r.resourceType in STATIC_TYPES
  }

  predicate Permits(f: Fence, e: NetworkEvent) {
    e.Asks? && Allowed(f, e.request)
  }

  // ----- The session

  /** One control as the extractor reports it; the other reported attributes travel in `rest`. */
  datatype PageControl = PageControl(key: string, tag: string, kind: string, elementId: string, name: string,
                                     required: bool, visible: bool, disabled: bool, options: seq<string>,
                                     maxLength: int, accept: string, rest: string)

  datatype Snapshot = Snapshot(controls: seq<PageControl>, captcha: bool, auth: bool, blockers: seq<string>,
                               actions: seq<string>)

  datatype Look = Look(now: int, pageOpen: bool, onTarget: bool, fails: bool, events: seq<NetworkEvent>, shown: Snapshot)

  datatype Phase = New | Open | Inspected | Preparing | Ready | Blocked | Expired | Closed

  datatype Observation = Observation(token: string, at: int, shown: Snapshot)

  /** What a ready outcome was based on. */
  datatype Certificate = Certificate(token: string, observation: Observation, begunAt: int, finishedAt: int,
                                     finalControls: seq<PageControl>, fenceClear: bool)

  datatype Limits = Limits(sessionTimeout: int, observationAge: int)

  /**
   The fields of the session, then history: how often the executor ran, how many
   events the fence let through after the first form write or upload, the token
   of the latest inspection, when and with which token the review was checked,
   and the certificate of a ready outcome.
   */
  datatype State = State(phase: Phase, startedAt: int, fence: Fence, observation: Option<Observation>,
                         prepareAttempted: bool, writes: nat, uploads: nat,
                         prepareRuns: nat, lateRequests: nat, latestToken: Option<string>, begunAt: int, begunWith: string,
                         certificate: Option<Certificate>)

  function Initial(fixture: bool): State {
    State(New, 0, Fence(fixture, false, false), None, false, 0, 0, 0, 0, None, 0, "", None)
  }

  function OnEvents(s: State, events: seq<NetworkEvent>): State
    decreases |events|
  {
    if events == [] then s
    else
      var e := events[0];
      var late := s.writes + s.uploads > 0 && Permits(s.fence, e);
      OnEvents(s.(fence := s.fence.(blocked := s.fence.blocked || !Permits(s.fence, e)),
                  lateRequests := s.lateRequests + if late then 1 else 0),
               events[1..])
  }

  function Block(s: State): State {
    s.(phase := Blocked, observation := None)
  }

  /** `_require_active`: the state and whether the session may go on. */
  function RequireActive(limits: Limits, s: State, look: Look, preparing: bool): (State, bool) {
    if (if preparing then s.phase != Preparing else s.phase != Open && s.phase != Inspected) then (s, false)
    else if look.now - s.startedAt >= limits.sessionTimeout then (s.(phase := Expired, observation := None), false)
    else if !look.pageOpen || s.fence.blocked || !look.onTarget then (Block(s), false)
    else (s, true)
  }

  /** `_snapshot`: check, read the page, check again. */
  function Examine(limits: Limits, s: State, before: Look, look: Look, preparing: bool): (State, bool) {
    var (s1, active) := RequireActive(limits, s, before, preparing);
    if !active then (s1, false)
    else
      var s2 := OnEvents(s1, look.events);
      if look.fails || s2.fence.blocked then (s2, false) else RequireActive(limits, s2, look, preparing)
  }

  /** A failure outside `_block`: the session is blocked unless it already ended otherwise. */
  function GiveUp(s: State): State {
    if s.phase == Closed || s.phase == Expired then s else s.(phase := Blocked)
  }

  datatype Action =
    | Enter(look: Look)
    | Background(events: seq<NetworkEvent>)
    | Inspect(before: Look, look: Look, token: string)
    | BeginPrepare(urlMatches: bool, reviewed: string, first: Look, before: Look, look: Look)
    | Surface(before: Look, look: Look, controls: seq<PageControl>)
    | BeginFilling
    | CountWrite
    | CountUpload
    | EndPrepare(ready: bool, before: Look, look: Look, last: Look)
    | Close

  function OnEnter(limits: Limits, s: State, look: Look): State {
    if s.phase != New then s
    else
      var entered := OnEvents(s.(startedAt := look.now), look.events);
      if look.fails then entered.(phase := Blocked)
      else
        var (checked, active) := RequireActive(limits, entered.(phase := Open), look, false);
        if active then checked else checked.(phase := Blocked)
  }

  function OnInspect(limits: Limits, s: State, before: Look, look: Look, token: string): State {
    var (s1, ok) := Examine(limits, s, before, look, false);
    if ok then s1.(phase := Inspected, observation := Some(Observation(token, look.now, look.shown)),
                   latestToken := Some(token))
    else GiveUp(s1)
  }

  function CheckReview(limits: Limits, s: State, urlMatches: bool, reviewed: string, first: Look): (r: (State, bool))
    ensures r.1 ==> r.0.observation.Some?
  {
    var (s1, active) := RequireActive(limits, s, first, false);
    if !active then (GiveUp(s1), false)
    else if s1.prepareAttempted || s1.observation.None? || reviewed != s1.observation.value.token
            || first.now - s1.observation.value.at >= limits.observationAge || !urlMatches then (Block(s1), false)
    else (s1, true)
  }

  function CompareReview(limits: Limits, s: State, reviewed: string, begun: int, before: Look, look: Look,
                         seen: Snapshot): (State, bool)
  {
    var (s1, ok) := Examine(limits, s, before, look, false);
    if !ok then (GiveUp(s1), false)
    else if look.shown != seen then (Block(s1), false)
    else (s1.(prepareAttempted := true, phase := Preparing, prepareRuns := s1.prepareRuns + 1, begunAt := begun,
              begunWith := reviewed), true)
  }

  /** The first half of `prepare`, and whether the executor may run. */
  function BeginStep(limits: Limits, s: State, urlMatches: bool, reviewed: string, first: Look, before: Look, look: Look)
    : (State, bool)
  {
    var (s1, ok) := CheckReview(limits, s, urlMatches, reviewed, first);
    if !ok then (s1, false)
    else CompareReview(limits, s1, reviewed, first.now, before, look, s1.observation.value.shown)
  }

  function OnBeginPrepare(limits: Limits, s: State, urlMatches: bool, reviewed: string, first: Look, before: Look,
                          look: Look): State
  {
    BeginStep(limits, s, urlMatches, reviewed, first, before, look).0
  }

  /** `require_current_surface` of the executor; false is its exception. */
  function OnSurface(limits: Limits, s: State, before: Look, look: Look, controls: seq<PageControl>): (State, bool) {
    var (s1, active) := RequireActive(limits, s, before, true);
    if !active then (s1, false)
    else
      var s2 := OnEvents(s1, look.events);
      (s2, && !look.fails && !s2.fence.blocked && look.onTarget && look.shown.controls == controls
           && !look.shown.captcha && !look.shown.auth && look.shown.blockers == [])
  }

  /** The recheck after the executor: one more snapshot against the reviewed controls, one more activity check. */
  function FinalCheck(limits: Limits, s: State, before: Look, look: Look, last: Look): (r: (State, bool)) {
    var (s1, ok) := Examine(limits, s, before, look, true);
    if !ok then (s1, false)
    else if look.shown.captcha || look.shown.auth || look.shown.blockers != [] || s1.observation.None?
            || look.shown.controls != s1.observation.value.shown.controls then (s1, false)
    else RequireActive(limits, s1, last, true)
  }

  function OnEndPrepare(limits: Limits, s: State, ready: bool, before: Look, look: Look, last: Look): State {
    if s.phase !in {Preparing, Expired, Blocked} || !s.prepareAttempted then s
    else
      var (s1, ok) := if ready then FinalCheck(limits, s, before, look, last) else (s, false);
      Conclusion(s1, ok && s1.observation.Some?, last.now, look.shown.controls)
  }

  function Conclusion(s: State, ready: bool, finished: int, controls: seq<PageControl>): State
    requires ready ==> s.observation.Some?
  {
    if !ready then s.(phase := if s.phase == Expired then Expired else Blocked, observation := None)
    else
      s.(phase := Ready, observation := None,
         certificate := Some(Certificate(s.begunWith, s.observation.value, s.begunAt, finished, controls, !s.fence.blocked)))
  }

  function Step(limits: Limits, s: State, a: Action): State {
    match a
    case Enter(look) => OnEnter(limits, s, look)
    case Background(events) => OnEvents(s, events)
    case Inspect(before, look, token) => OnInspect(limits, s, before, look, token)
    case BeginPrepare(matches, reviewed, first, before, look) =>
      OnBeginPrepare(limits, s, matches, reviewed, first, before, look)
    case Surface(before, look, controls) => OnSurface(limits, s, before, look, controls).0
    case BeginFilling => if s.phase == Preparing && !s.fence.blocked then s.(fence := s.fence.(preparing := true)) else s
    case CountWrite => if s.phase == Preparing && s.fence.preparing then s.(writes := s.writes + 1) else s
    case CountUpload => if s.phase == Preparing && s.fence.preparing then s.(uploads := s.uploads + 1) else s
    case EndPrepare(ready, before, look, last) => OnEndPrepare(limits, s, ready, before, look, last)
    case Close => s.(phase := Closed, observation := None)
  }

  function Run(limits: Limits, fixture: bool, actions: seq<Action>): State {
    if actions == [] then Initial(fixture)
    else Step(limits, Run(limits, fixture, actions[..|actions| - 1]), actions[|actions| - 1])
  }

  // ----- The invariant

  ghost predicate CertificateOk(limits: Limits, s: State, c: Certificate) {
    && s.latestToken == Some(c.token) && c.observation.token == c.token
    && c.begunAt - c.observation.at < limits.observationAge
    && c.finishedAt - s.startedAt < limits.sessionTimeout
    && c.finalControls == c.observation.shown.controls
    && c.fenceClear
  }

  ghost predicate Inv(limits: Limits, s: State) {
    && s.prepareRuns == (if s.prepareAttempted then 1 else 0)
    && (s.fence.preparing ==> s.prepareAttempted)
    && (s.writes + s.uploads > 0 ==> s.fence.preparing)
    && s.lateRequests == 0
    && (s.observation.Some? ==> s.latestToken == Some(s.observation.value.token))
    && (s.phase == New ==> !s.prepareAttempted && s.observation.None?)
    && (s.phase == Open || s.phase == Inspected ==> !s.prepareAttempted)
    && (s.phase == Preparing ==>
          s.prepareAttempted && s.observation.Some? && s.certificate.None?
          && s.begunWith == s.observation.value.token && s.begunAt - s.observation.value.at < limits.observationAge)
    && (s.phase == Ready ==> s.certificate.Some?)
    && (s.certificate.Some? ==> s.prepareAttempted && s.phase !in {New, Open, Inspected, Preparing}
                                && CertificateOk(limits, s, s.certificate.value))
  }

  /** What network events can change: nothing but the fence's verdict; none is let through while preparing. */
  lemma {:induction false} EventsOnlyBlock(s: State, events: seq<NetworkEvent>)
    requires s.writes + s.uploads > 0 ==> s.fence.preparing
    ensures OnEvents(s, events) == s.(fence := s.fence.(blocked := OnEvents(s, events).fence.blocked))
    ensures OnEvents(s, events).fence.blocked <==> s.fence.blocked || exists e | e in events :: !Permits(s.fence, e)
    decreases |events|
  {
    if events != [] {
      var e := events[0];
      var t := s.(fence := s.fence.(blocked := s.fence.blocked || !Permits(s.fence, e)));
      assert OnEvents(s, events) == OnEvents(t, events[1..]);
      EventsOnlyBlock(t, events[1..]);
      assert forall x :: Permits(t.fence, x) <==> Permits(s.fence, x);
      assert forall x :: x in events <==> x == e || x in events[1..];
    }
  }

  /** What an activity check can change: the phase and the observation, when it fails. */
  lemma RequireActiveEffect(limits: Limits, s: State, look: Look, preparing: bool)
    ensures var (t, ok) := RequireActive(limits, s, look, preparing);
            && (ok ==> t == s && !s.fence.blocked && look.now - s.startedAt < limits.sessionTimeout && look.onTarget
                       && (if preparing then s.phase == Preparing else s.phase == Open || s.phase == Inspected))
            && (!ok ==> t == s || t == s.(phase := Expired, observation := None) || t == Block(s))
  {
  }

  /** A failed examination leaves the state but for the fence's verdict, or has ended the session besides. */
  predicate Disturbed(s: State, t: State) {
    var u := s.(fence := s.fence.(blocked := t.fence.blocked));
    t == u || t == u.(phase := Expired, observation := None) || t == Block(u)
  }

  /** A passed examination changes only the fence's verdict, which is clear, and happens in time. */
  lemma ExamineEffect(limits: Limits, s: State, before: Look, look: Look, preparing: bool)
    requires s.writes + s.uploads > 0 ==> s.fence.preparing
    ensures var (t, ok) := Examine(limits, s, before, look, preparing);
            && (ok ==> t == s && !s.fence.blocked && look.now - s.startedAt < limits.sessionTimeout && look.onTarget
                       && (if preparing then s.phase == Preparing else s.phase == Open || s.phase == Inspected))
            && (!ok ==> Disturbed(s, t))
  {
    RequireActiveEffect(limits, s, before, preparing);
    var (s1, active) := RequireActive(limits, s, before, preparing);
    if active {
      EventsOnlyBlock(s1, look.events);
      RequireActiveEffect(limits, OnEvents(s1, look.events), look, preparing);
    }
  }

  // ----- When each call succeeds

  /** In time, on an open page at the approved address. */
  predicate Live(limits: Limits, startedAt: int, look: Look) {
    look.now - startedAt < limits.sessionTimeout && look.pageOpen && look.onTarget
  }

  ghost predicate AllPermitted(f: Fence, events: seq<NetworkEvent>) {
    forall e | e in events :: Permits(f, e)
  }

  /** Two activity checks around one reading of the page, which succeeds and starts only what is permitted. */
  ghost predicate Examined(limits: Limits, s: State, before: Look, look: Look) {
    && Live(limits, s.startedAt, before) && AllPermitted(s.fence, look.events) && !look.fails
    && Live(limits, s.startedAt, look)
  }

  /** The reviewed controls, and nothing in the way. */
  predicate ShowsForm(shown: Snapshot, controls: seq<PageControl>) {
    shown.controls == controls && !shown.captcha && !shown.auth && |shown.blockers| == 0
  }

  predicate PhaseFor(s: State, preparing: bool) {
    if preparing then s.phase == Preparing else s.phase == Open || s.phase == Inspected
  }

  /** What the fence lets through: before the filling, the exact document and plain static files of the same origin. */
  lemma PermitsIff(f: Fence, e: NetworkEvent)
    ensures Permits(f, e) <==>
            && e.Asks? && !f.fixture && !f.preparing
            && var r := e.request;
               && r.parses && r.plain && r.sameOrigin && r.verb in {"GET", "HEAD"}
               && (r.navigation ==> r.exactTarget && r.resourceType == "document")
               && (!r.navigation ==> !r.hasQuery && r.resourceType in {"script", "stylesheet", "image", "font", "media"})
  {
  }

  lemma ActiveIff(limits: Limits, s: State, look: Look, preparing: bool)
    ensures var (t, ok) := RequireActive(limits, s, look, preparing);
            && (ok <==> PhaseFor(s, preparing) && !s.fence.blocked && Live(limits, s.startedAt, look))
            && t == (if !PhaseFor(s, preparing) || ok then s
                     else if limits.sessionTimeout <= look.now - s.startedAt then
                       s.(phase := Expired, observation := None)
                     else s.(phase := Blocked, observation := None))
  {
  }

  lemma ExamineIff(limits: Limits, s: State, before: Look, look: Look, preparing: bool)
    requires s.writes + s.uploads > 0 ==> s.fence.preparing
    ensures Examine(limits, s, before, look, preparing).1 <==>
            PhaseFor(s, preparing) && !s.fence.blocked && Examined(limits, s, before, look)
  {
    ActiveIff(limits, s, before, preparing);
    if RequireActive(limits, s, before, preparing).1 {
      EventsOnlyBlock(s, look.events);
      ActiveIff(limits, OnEvents(s, look.events), look, preparing);
    }
  }

  /** Opening succeeds exactly on a new session whose page loads, at its address, starting only what is permitted. */
  lemma EnterIff(limits: Limits, s: State, look: Look)
    requires Inv(limits, s)
    ensures OnEnter(limits, s, look).phase == Open <==>
            || s.phase == Open
            || (s.phase == New && !s.fence.blocked && AllPermitted(s.fence, look.events) && !look.fails
                && Live(limits, look.now, look))
  {
    var started := s.(startedAt := look.now);
    EventsOnlyBlock(started, look.events);
    ActiveIff(limits, OnEvents(started, look.events).(phase := Open), look, false);
  }

  /** Inspecting succeeds exactly on an active session and a page that can be examined. */
  lemma InspectIff(limits: Limits, s: State, before: Look, look: Look, token: string)
    requires Inv(limits, s)
    ensures var t := OnInspect(limits, s, before, look, token);
            var ok := (s.phase == Open || s.phase == Inspected) && !s.fence.blocked && Examined(limits, s, before, look);
            && (ok ==> t.phase == Inspected && t.observation == Some(Observation(token, look.now, look.shown)))
            && (!ok ==> t.phase in {Blocked, Expired, Closed})
  {
    ExamineIff(limits, s, before, look, false);
    ExamineEffect(limits, s, before, look, false);
  }

  /** The session time is over at one of the two guards around an otherwise faultless look. */
  ghost predicate RunsOut(limits: Limits, s: State, before: Look, look: Look) {
    || limits.sessionTimeout <= before.now - s.startedAt
    || (Live(limits, s.startedAt, before) && !s.fence.blocked && AllPermitted(s.fence, look.events) && !look.fails
        && limits.sessionTimeout <= look.now - s.startedAt)
  }

  /**
   And how it ends otherwise: a closed or expired session stays as it is, an
   active one expires exactly when its time runs out, and all else is blocked.
   */
  lemma InspectEnds(limits: Limits, s: State, before: Look, look: Look, token: string)
    requires Inv(limits, s)
    ensures var t := OnInspect(limits, s, before, look, token);
            && (s.phase == Closed || s.phase == Expired ==> t == s)
            && (t.phase == Closed <==> s.phase == Closed)
            && (t.phase == Expired <==>
                s.phase == Expired || ((s.phase == Open || s.phase == Inspected) && RunsOut(limits, s, before, look)))
  {
    ActiveIff(limits, s, before, false);
    if RequireActive(limits, s, before, false).1 {
      EventsOnlyBlock(s, look.events);
      ActiveIff(limits, OnEvents(s, look.events), look, false);
    }
  }

  /**
   The executor may run exactly on an active session that was not used yet,
   with the current token within its age, for this target, while the page still
   shows exactly what was inspected.
   */
  ghost predicate MayPrepare(limits: Limits, s: State, urlMatches: bool, reviewed: string, first: Look, before: Look,
                             look: Look)
  {
    && (s.phase == Open || s.phase == Inspected) && !s.fence.blocked && Live(limits, s.startedAt, first)
    && !s.prepareAttempted && s.observation.Some? && s.observation.value.token == reviewed && urlMatches
    && first.now - s.observation.value.at < limits.observationAge
    && Examined(limits, s, before, look) && look.shown == s.observation.value.shown
  }

  lemma BeginIff(limits: Limits, s: State, urlMatches: bool, reviewed: string, first: Look, before: Look, look: Look)
    requires Inv(limits, s)
    ensures var (t, ok) := BeginStep(limits, s, urlMatches, reviewed, first, before, look);
            && (ok <==> MayPrepare(limits, s, urlMatches, reviewed, first, before, look))
            && (ok ==> t.phase == Preparing && t.fence == s.fence && t.startedAt == s.startedAt
                       && t.observation == s.observation)
  {
    ActiveIff(limits, s, first, false);
    ExamineIff(limits, s, before, look, false);
    ExamineEffect(limits, s, before, look, false);
  }

  /** The executor's own check passes exactly while the page shows the fingerprinted controls and nothing in the way. */
  ghost predicate SurfaceSeen(limits: Limits, s: State, before: Look, look: Look, controls: seq<PageControl>) {
    && Live(limits, s.startedAt, before) && AllPermitted(s.fence, look.events) && !look.fails && look.onTarget
    && ShowsForm(look.shown, controls)
  }

  lemma SurfaceIff(limits: Limits, s: State, before: Look, look: Look, controls: seq<PageControl>)
    requires s.writes + s.uploads > 0 ==> s.fence.preparing
    ensures var (t, ok) := OnSurface(limits, s, before, look, controls);
            && (ok <==> s.phase == Preparing && !s.fence.blocked && SurfaceSeen(limits, s, before, look, controls))
            && (ok ==> t == s) && (t.phase == Preparing ==> t.observation == s.observation)
  {
    ActiveIff(limits, s, before, true);
    EventsOnlyBlock(s, look.events);
  }

  /** A proposal is confirmed exactly when the page, examined once more in time, still shows the reviewed controls. */
  ghost predicate MayConclude(limits: Limits, s: State, before: Look, look: Look, last: Look) {
    && s.phase == Preparing && !s.fence.blocked && Examined(limits, s, before, look)
    && s.observation.Some? && ShowsForm(look.shown, s.observation.value.shown.controls)
    && Live(limits, s.startedAt, last)
  }

  lemma ConcludeIff(limits: Limits, s: State, ready: bool, before: Look, look: Look, last: Look)
    requires Inv(limits, s) && s.prepareAttempted && s.phase in {Preparing, Expired, Blocked}
    ensures OnEndPrepare(limits, s, ready, before, look, last).phase == Ready <==>
            ready && MayConclude(limits, s, before, look, last)
    ensures FinalCheck(limits, s, before, look, last).1 <==> MayConclude(limits, s, before, look, last)
  {
    ExamineIff(limits, s, before, look, true);
    ExamineEffect(limits, s, before, look, true);
    ActiveIff(limits, s, last, true);
  }

  lemma EnterKeepsInv(limits: Limits, s: State, look: Look)
    requires Inv(limits, s)
    ensures Inv(limits, OnEnter(limits, s, look))
  {
    if s.phase == New {
      EventsOnlyBlock(s.(startedAt := look.now), look.events);
      var entered := OnEvents(s.(startedAt := look.now), look.events);
      RequireActiveEffect(limits, entered.(phase := Open), look, false);
    }
  }

  lemma InspectKeepsInv(limits: Limits, s: State, before: Look, look: Look, token: string)
    requires Inv(limits, s)
    ensures Inv(limits, OnInspect(limits, s, before, look, token))
  {
    ExamineEffect(limits, s, before, look, false);
  }

  lemma SurfaceKeepsInv(limits: Limits, s: State, before: Look, look: Look, controls: seq<PageControl>)
    requires Inv(limits, s)
    ensures Inv(limits, OnSurface(limits, s, before, look, controls).0)
  {
    RequireActiveEffect(limits, s, before, true);
    EventsOnlyBlock(RequireActive(limits, s, before, true).0, look.events);
  }

  /** A passed recheck leaves the state alone and saw the reviewed controls, in time, with a clear fence. */
  lemma FinalCheckPasses(limits: Limits, s: State, before: Look, look: Look, last: Look)
    requires s.writes + s.uploads > 0 ==> s.fence.preparing
    ensures var (t, ok) := FinalCheck(limits, s, before, look, last);
            && (ok ==> t == s && s.phase == Preparing && !s.fence.blocked && last.now - s.startedAt < limits.sessionTimeout
                       && s.observation.Some? && look.shown.controls == s.observation.value.shown.controls)
            && (!ok ==> Disturbed(s, t))
  {
    ExamineEffect(limits, s, before, look, true);
    RequireActiveEffect(limits, s, last, true);
  }

  lemma EndPrepareKeepsInv(limits: Limits, s: State, ready: bool, before: Look, look: Look, last: Look)
    requires Inv(limits, s)
    ensures Inv(limits, OnEndPrepare(limits, s, ready, before, look, last))
  {
    FinalCheckPasses(limits, s, before, look, last);
  }

  lemma BeginPrepareKeepsInv(limits: Limits, s: State, matches: bool, reviewed: string, first: Look, before: Look, look: Look)
    requires Inv(limits, s)
    ensures Inv(limits, OnBeginPrepare(limits, s, matches, reviewed, first, before, look))
  {
    var (s1, active) := RequireActive(limits, s, first, false);
    if active {
      ExamineEffect(limits, s1, before, look, false);
    }
  }

  lemma StepKeepsInv(limits: Limits, s: State, a: Action)
    requires Inv(limits, s)
    ensures Inv(limits, Step(limits, s, a))
  {
    match a
    case Enter(look) => EnterKeepsInv(limits, s, look);
    case Background(events) => EventsOnlyBlock(s, events);
    case Inspect(before, look, token) => InspectKeepsInv(limits, s, before, look, token);
    case BeginPrepare(matches, reviewed, first, before, look) =>
      BeginPrepareKeepsInv(limits, s, matches, reviewed, first, before, look);
    case Surface(before, look, controls) => SurfaceKeepsInv(limits, s, before, look, controls);
    case EndPrepare(ready, before, look, last) => EndPrepareKeepsInv(limits, s, ready, before, look, last);
    case _ =>
  }

  lemma {:induction false} RunKeepsInv(limits: Limits, fixture: bool, actions: seq<Action>)
    ensures Inv(limits, Run(limits, fixture, actions))
  {
    if actions != [] {
      RunKeepsInv(limits, fixture, actions[..|actions| - 1]);
      StepKeepsInv(limits, Run(limits, fixture, actions[..|actions| - 1]), actions[|actions| - 1]);
    }
  }

  // ----- The guarantees

  /**
   Whenever a session is ready, the executor has run exactly once, on the token
   of the latest inspection, checked within the observation age; the final check
   fell inside the session time, saw the reviewed controls again, and no network
   event had been denied by then.
   */
  lemma {:induction false} ReadyIsCertified(limits: Limits, fixture: bool, actions: seq<Action>)
    requires Run(limits, fixture, actions).phase == Ready
    ensures var s := Run(limits, fixture, actions);
            && s.prepareRuns == 1 && s.certificate.Some? && CertificateOk(limits, s, s.certificate.value)
  {
    RunKeepsInv(limits, fixture, actions);
  }

  /** Over any call sequence the executor runs at most once, and once a value may be on the page nothing passes the fence. */
  lemma {:induction false} OnePreparationAndSilence(limits: Limits, fixture: bool, actions: seq<Action>)
    ensures var s := Run(limits, fixture, actions);
            && s.prepareRuns <= 1 && s.lateRequests == 0
            && (s.writes + s.uploads > 0 ==> forall e :: !Permits(s.fence, e))
  {
    RunKeepsInv(limits, fixture, actions);
  }

  /** A denied event ends the preparation: whatever follows, the session is not ready. */
  lemma {:induction false} DenialIsFinal(limits: Limits, s: State, more: seq<Action>)
    requires Inv(limits, s) && s.phase == Preparing && s.fence.blocked
    ensures RunFrom(limits, s, more).phase != Ready && RunFrom(limits, s, more).fence.blocked
    ensures Inv(limits, RunFrom(limits, s, more)) && RunFrom(limits, s, more).phase !in {New, Open, Inspected}
  {
    if more != [] {
      var n := |more| - 1;
      DenialIsFinal(limits, s, more[..n]);
      var t := RunFrom(limits, s, more[..n]);
      StepKeepsInv(limits, t, more[n]);
      BlockedStaysBlocked(limits, t, more[n]);
    }
  }

  function RunFrom(limits: Limits, s: State, actions: seq<Action>): State {
    if actions == [] then s
    else Step(limits, RunFrom(limits, s, actions[..|actions| - 1]), actions[|actions| - 1])
  }

  lemma BlockedStaysBlocked(limits: Limits, s: State, a: Action)
    requires Inv(limits, s) && s.fence.blocked && s.phase !in {New, Open, Inspected, Ready}
    ensures var t := Step(limits, s, a); t.fence.blocked && t.phase !in {New, Open, Inspected, Ready}
  {
    match a
    case Background(events) => EventsOnlyBlock(s, events);
    case Surface(before, look, _) =>
      EventsOnlyBlock(RequireActive(limits, s, before, true).0, look.events);
    case Inspect(before, look, token) => ExamineEffect(limits, s, before, look, false);
    case BeginPrepare(_, _, first, before, look) =>
    case EndPrepare(_, before, look, _) => ExamineEffect(limits, s, before, look, true);
    case _ =>
  }

  /** Once the preparation is over the attempt counters are frozen. */
  lemma {:induction false} CountersFreeze(limits: Limits, s: State, more: seq<Action>)
    requires Inv(limits, s) && s.prepareAttempted && s.phase != Preparing
    ensures var t := RunFrom(limits, s, more);
            && Inv(limits, t) && t.prepareAttempted && t.phase != Preparing
            && t.writes == s.writes && t.uploads == s.uploads && t.prepareRuns == s.prepareRuns
  {
    if more != [] {
      var n := |more| - 1;
      CountersFreeze(limits, s, more[..n]);
      var t := RunFrom(limits, s, more[..n]);
      StepKeepsInv(limits, t, more[n]);
      PreparationNotReentered(limits, t, more[n]);
    }
  }

  lemma PreparationNotReentered(limits: Limits, s: State, a: Action)
    requires Inv(limits, s) && s.prepareAttempted && s.phase != Preparing
    ensures var t := Step(limits, s, a);
            && t.prepareAttempted && t.phase != Preparing
            && t.writes == s.writes && t.uploads == s.uploads && t.prepareRuns == s.prepareRuns
  {
    match a
    case Background(events) => EventsOnlyBlock(s, events);
    case Surface(before, look, _) =>
      EventsOnlyBlock(RequireActive(limits, s, before, true).0, look.events);
    case Inspect(before, look, token) => ExamineEffect(limits, s, before, look, false);
    case EndPrepare(_, before, look, _) => ExamineEffect(limits, s, before, look, true);
    case _ =>
  }

  // ----- A session can become ready

  function Still(shown: Snapshot): Look {
    Look(0, true, true, false, [], shown)
  }

  lemma {:induction false} RunAppend(limits: Limits, fixture: bool, actions: seq<Action>, a: Action)
    ensures Run(limits, fixture, actions + [a]) == Step(limits, Run(limits, fixture, actions), a)
  {
    assert (actions + [a])[..|actions|] == actions;
  }

  lemma StillIsInspected(limits: Limits, fixture: bool, shown: Snapshot, token: string) returns (actions: seq<Action>)
    requires limits.sessionTimeout > 0
    ensures Run(limits, fixture, actions)
            == Initial(fixture).(phase := Inspected, observation := Some(Observation(token, 0, shown)),
                                 latestToken := Some(token))
  {
    var look := Still(shown);
    RunAppend(limits, fixture, [], Enter(look));
    actions := [] + [Enter(look)];
    assert Run(limits, fixture, actions) == Initial(fixture).(phase := Open);
    RunAppend(limits, fixture, actions, Inspect(look, look, token));
    actions := actions + [Inspect(look, look, token)];
  }

  lemma StillIsPreparing(limits: Limits, fixture: bool, shown: Snapshot, token: string) returns (actions: seq<Action>)
    requires limits.sessionTimeout > 0 && limits.observationAge > 0
    ensures var s := Run(limits, fixture, actions);
            && s.phase == Preparing && s.startedAt == 0 && s.fence == Fence(fixture, true, false)
            && s.observation == Some(Observation(token, 0, shown))
  {
    var look := Still(shown);
    actions := StillIsInspected(limits, fixture, shown, token);
    RunKeepsInv(limits, fixture, actions);
    BeginIff(limits, Run(limits, fixture, actions), true, token, look, look, look);
    RunAppend(limits, fixture, actions, BeginPrepare(true, token, look, look, look));
    actions := actions + [BeginPrepare(true, token, look, look, look)];
    RunAppend(limits, fixture, actions, BeginFilling);
    actions := actions + [BeginFilling];
  }

  /** Any page that keeps showing the same form, with nothing in the way, can be prepared to the end. */
  lemma AStillPageBecomesReady(limits: Limits, fixture: bool, shown: Snapshot, token: string)
    returns (actions: seq<Action>)
    requires limits.sessionTimeout > 0 && limits.observationAge > 0
    requires !shown.captcha && !shown.auth && shown.blockers == []
    ensures Run(limits, fixture, actions).phase == Ready
  {
    var look := Still(shown);
    actions := StillIsPreparing(limits, fixture, shown, token);
    RunKeepsInv(limits, fixture, actions);
    ConcludeIff(limits, Run(limits, fixture, actions), true, look, look, look);
    RunAppend(limits, fixture, actions, EndPrepare(true, look, look, look));
    actions := actions + [EndPrepare(true, look, look, look)];
  }

  // ----- The session object

  /** The fields of the session; the ghost fields are the history that `State` carries. */
  class FencedApplicationSession {
    const limits: Limits
    const fixture: bool
    var phase: Phase
    var startedAt: int
    var fencePreparing: bool
    var fenceBlocked: bool
    var observation: Option<Observation>
    var prepareAttempted: bool
    var writeAttempts: nat
    var uploadAttempts: nat
    ghost var prepareRuns: nat
    ghost var lateRequests: nat
    ghost var latestToken: Option<string>
    ghost var begunAt: int
    ghost var begunWith: string
    ghost var certificate: Option<Certificate>
    ghost var history: seq<Action>

    ghost function View(): State
      reads this
    {
      State(phase, startedAt, Fence(fixture, fencePreparing, fenceBlocked), observation, prepareAttempted,
            writeAttempts, uploadAttempts, prepareRuns, lateRequests, latestToken, begunAt, begunWith, certificate)
    }

    /** The object is where its history of calls leads. */
    ghost predicate Valid()
      reads this
    {
      View() == Run(limits, fixture, history)
    }

    constructor (limits: Limits, fixture: bool)
      ensures Valid() && history == [] && this.limits == limits && this.fixture == fixture
    {
      this.limits, this.fixture := limits, fixture;
      phase, startedAt, fencePreparing, fenceBlocked := New, 0, false, false;
      observation, prepareAttempted, writeAttempts, uploadAttempts := None, false, 0, 0;
      prepareRuns, lateRequests, latestToken, begunAt, begunWith, certificate := 0, 0, None, 0, "", None;
      history := [];
    }

    /** The route callback, once per event. */
    method HandleEvents(events: seq<NetworkEvent>)
      modifies this`fenceBlocked, this`lateRequests
      ensures View() == OnEvents(old(View()), events)
    {
      ghost var start := View();
      var i := 0;
      while i < |events|
        invariant 0 <= i <= |events|
        invariant OnEvents(start, events) == OnEvents(View(), events[i..])
      {
        var fence := Fence(fixture, fencePreparing, fenceBlocked);
        if Permits(fence, events[i]) {
          lateRequests := lateRequests + if writeAttempts + uploadAttempts > 0 then 1 else 0;
        } else {
          fenceBlocked := true;
        }
        i := i + 1;
      }
    }

    method CheckActive(look: Look, preparing: bool) returns (active: bool)
      modifies this`phase, this`observation
      ensures (View(), active) == RequireActive(limits, old(View()), look, preparing)
    {
      var expected := if preparing then phase == Preparing else phase == Open || phase == Inspected;
      if !expected {
        return false;
      }
      if look.now - startedAt >= limits.sessionTimeout {
        phase, observation := Expired, None;
        return false;
      }
      if !look.pageOpen || fenceBlocked || !look.onTarget {
        phase, observation := Blocked, None;
        return false;
      }
      return true;
    }

    method TakeSnapshot(before: Look, look: Look, preparing: bool) returns (ok: bool)
      modifies this`phase, this`observation, this`fenceBlocked, this`lateRequests
      ensures (View(), ok) == Examine(limits, old(View()), before, look, preparing)
    {
      ok := CheckActive(before, preparing);
      if ok {
        HandleEvents(look.events);
        if look.fails || fenceBlocked {
          ok := false;
        } else {
          ok := CheckActive(look, preparing);
        }
      }
    }

    ghost method Record(a: Action)
      requires View() == Step(limits, Run(limits, fixture, history), a)
      modifies this`history
      ensures Valid() && history == old(history) + [a]
    {
      history := history + [a];
      assert history[..|history| - 1] == old(history);
    }

    method EnterSession(look: Look) returns (ok: bool)
      requires Valid()
      modifies this
      ensures Valid() && history == old(history) + [Enter(look)]
      ensures ok <==> && old(phase) == New && !old(fenceBlocked) && AllPermitted(old(View()).fence, look.events)
                      && !look.fails && Live(limits, look.now, look)
      ensures ok ==> phase == Open
      ensures !ok && old(phase) == New ==> phase == Blocked
    {
      EnterOfRun(limits, fixture, history, look);
      ok := OpenPage(look);
      Record(Enter(look));
    }

    /** Opening, without the bookkeeping. */
    method OpenPage(look: Look) returns (ok: bool)
      modifies this`phase, this`startedAt, this`observation, this`fenceBlocked, this`lateRequests
      ensures View() == OnEnter(limits, old(View()), look)
      ensures ok <==> old(phase) == New && phase == Open
      ensures old(phase) == New ==> phase == Open || phase == Blocked
    {
      ok := false;
      if phase == New {
        startedAt := look.now;
        HandleEvents(look.events);
        if look.fails {
          phase := Blocked;
        } else {
          phase := Open;
          ok := CheckActive(look, false);
          if !ok {
            phase := Blocked;
          }
        }
      }
    }

    method InspectPage(before: Look, look: Look, token: string) returns (ok: bool)
      requires Valid()
      modifies this
      ensures Valid() && history == old(history) + [Inspect(before, look, token)]
      ensures ok <==> && (old(phase) == Open || old(phase) == Inspected) && !old(fenceBlocked)
                      && Examined(limits, old(View()), before, look)
      ensures ok ==> phase == Inspected && observation == Some(Observation(token, look.now, look.shown))
      ensures !ok ==> phase in {Blocked, Expired, Closed}
    {
      RunKeepsInv(limits, fixture, history);
      InspectIff(limits, View(), before, look, token);
      ok := TakeSnapshot(before, look, false);
      if ok {
        observation := Some(Observation(token, look.now, look.shown));
        phase := Inspected;
        latestToken := Some(token);
      } else if phase != Closed && phase != Expired {
        phase := Blocked;
      }
      Record(Inspect(before, look, token));
    }

    /** The failure handler around inspection and review. */
    method AbandonUnlessEnded()
      modifies this`phase
      ensures View() == GiveUp(old(View()))
    {
      if phase != Closed && phase != Expired {
        phase := Blocked;
      }
    }

    /** `_validate_reviewed_observation` up to the fresh snapshot. */
    method CheckToken(urlMatches: bool, reviewed: string, first: Look) returns (ok: bool)
      modifies this`phase, this`observation
      ensures (View(), ok) == CheckReview(limits, old(View()), urlMatches, reviewed, first)
    {
      ok := CheckActive(first, false);
      if ok {
        if prepareAttempted || observation.None? || reviewed != observation.value.token
           || first.now - observation.value.at >= limits.observationAge || !urlMatches {
          phase, observation, ok := Blocked, None, false;
        }
      } else {
        AbandonUnlessEnded();
      }
    }

    /** The fresh snapshot must equal the reviewed one; then the session is preparing. */
    method CompareAndPrepare(reviewed: string, begun: int, before: Look, look: Look, seen: Snapshot) returns (ok: bool)
      modifies this`phase, this`observation, this`fenceBlocked, this`lateRequests,
               this`prepareAttempted, this`prepareRuns, this`begunAt, this`begunWith
      ensures (View(), ok) == CompareReview(limits, old(View()), reviewed, begun, before, look, seen)
    {
      ok := TakeSnapshot(before, look, false);
      if !ok {
        AbandonUnlessEnded();
      } else if look.shown != seen {
        phase, observation, ok := Blocked, None, false;
      } else {
        prepareAttempted, phase := true, Preparing;
        prepareRuns, begunAt, begunWith := prepareRuns + 1, begun, reviewed;
      }
    }

    /** Token and snapshot, without the bookkeeping. */
    method CheckAndCompare(urlMatches: bool, reviewed: string, first: Look, before: Look, look: Look) returns (ok: bool)
      modifies this`phase, this`observation, this`fenceBlocked, this`lateRequests,
               this`prepareAttempted, this`prepareRuns, this`begunAt, this`begunWith
      ensures (View(), ok) == BeginStep(limits, old(View()), urlMatches, reviewed, first, before, look)
    {
      ok := CheckToken(urlMatches, reviewed, first);
      if ok {
        ok := CompareAndPrepare(reviewed, first.now, before, look, observation.value.shown);
      }
    }

    /** The first half of `prepare`; true when the executor may run. */
    method Begin(urlMatches: bool, reviewed: string, first: Look, before: Look, look: Look) returns (ok: bool)
      requires Valid()
      modifies this
      ensures Valid() && history == old(history) + [BeginPrepare(urlMatches, reviewed, first, before, look)]
      ensures ok <==> phase == Preparing
      ensures ok <==> MayPrepare(limits, old(View()), urlMatches, reviewed, first, before, look)
      ensures ok ==> prepareAttempted && writeAttempts == uploadAttempts == 0 && !fencePreparing && prepareRuns == 1
      ensures ok ==> !fenceBlocked && startedAt == old(startedAt) && observation == old(observation)
    {
      BeginOfRun(limits, fixture, history, urlMatches, reviewed, first, before, look);
      ok := CheckAndCompare(urlMatches, reviewed, first, before, look);
      Record(BeginPrepare(urlMatches, reviewed, first, before, look));
    }

    /** `require_current_surface`, called by the executor before and after everything it does. */
    method CheckSurface(before: Look, look: Look, controls: seq<PageControl>) returns (ok: bool)
      requires Valid()
      modifies this`phase, this`observation, this`fenceBlocked, this`lateRequests, this`history
      ensures Valid() && history == old(history) + [Surface(before, look, controls)]
      ensures ok <==> old(phase) == Preparing && !old(fenceBlocked) && SurfaceSeen(limits, old(View()), before, look, controls)
      ensures ok ==> View() == old(View())
      ensures phase == Preparing ==> observation == old(observation)
      ensures phase == old(phase) || phase == Expired || phase == Blocked
    {
      SurfaceOfRun(limits, fixture, history, before, look, controls);
      ok := CheckActive(before, true);
      if ok {
        HandleEvents(look.events);
        ok := && !look.fails && !fenceBlocked && look.onTarget && look.shown.controls == controls
              && !look.shown.captcha && !look.shown.auth && look.shown.blockers == [];
        EventsOnlyChangeFence(old(View()), look.events);
      }
      Record(Surface(before, look, controls));
    }

    /** A browser call outside the checks: it only lets pending network events through the fence. */
    method Pump(events: seq<NetworkEvent>)
      requires Valid()
      modifies this`fenceBlocked, this`lateRequests, this`history
      ensures Valid() && history == old(history) + [Background(events)]
      ensures fenceBlocked <==> old(fenceBlocked) || !AllPermitted(old(View()).fence, events)
    {
      RunKeepsInv(limits, fixture, history);
      EventsOnlyBlock(View(), events);
      HandleEvents(events);
      Record(Background(events));
    }

    method BeginFillingForm()
      requires Valid() && phase == Preparing && !fenceBlocked
      modifies this`fencePreparing, this`history
      ensures Valid() && fencePreparing && history == old(history) + [BeginFilling]
    {
      fencePreparing := true;
      Record(BeginFilling);
    }

    method CountOneWrite()
      requires Valid() && phase == Preparing && fencePreparing
      modifies this`writeAttempts, this`history
      ensures Valid() && writeAttempts == old(writeAttempts) + 1 && history == old(history) + [CountWrite]
    {
      writeAttempts := writeAttempts + 1;
      Record(CountWrite);
    }

    method CountOneUpload()
      requires Valid() && phase == Preparing && fencePreparing
      modifies this`uploadAttempts, this`history
      ensures Valid() && uploadAttempts == old(uploadAttempts) + 1 && history == old(history) + [CountUpload]
    {
      uploadAttempts := uploadAttempts + 1;
      Record(CountUpload);
    }

    /** The session's own recheck of a proposed ready result. */
    method Recheck(before: Look, look: Look, last: Look) returns (clean: bool)
      modifies this`phase, this`observation, this`fenceBlocked, this`lateRequests
      ensures (View(), clean) == FinalCheck(limits, old(View()), before, look, last)
    {
      clean := TakeSnapshot(before, look, true);
      if clean {
        clean := && !look.shown.captcha && !look.shown.auth && look.shown.blockers == []
                 && observation.Some? && look.shown.controls == observation.value.shown.controls;
        if clean {
          clean := CheckActive(last, true);
        }
      }
    }

    /** Ends the preparation: ready when everything held, otherwise expired or blocked. */
    method Settle(ready: bool, finished: int, controls: seq<PageControl>)
      requires ready ==> observation.Some?
      modifies this`phase, this`observation, this`certificate
      ensures View() == Conclusion(old(View()), ready, finished, controls)
    {
      if ready {
        certificate := Some(Certificate(begunWith, observation.value, begunAt, finished, controls, !fenceBlocked));
        phase := Ready;
      } else {
        phase := if phase == Expired then Expired else Blocked;
      }
      observation := None;
    }

    /** The second half of `prepare`: the executor's result is a proposal until the session has checked again. */
    method Conclude(proposed: bool, before: Look, look: Look, last: Look) returns (ready: bool)
      requires Valid() && prepareAttempted && phase in {Preparing, Expired, Blocked}
      modifies this
      ensures Valid() && history == old(history) + [EndPrepare(proposed, before, look, last)]
      ensures ready <==> phase == Ready
      ensures ready <==> proposed && MayConclude(limits, old(View()), before, look, last)
      ensures writeAttempts == old(writeAttempts) && uploadAttempts == old(uploadAttempts)
    {
      ghost var s := View();
      FinalCheckOfRun(limits, fixture, history, before, look, last);
      ready := false;
      if proposed {
        ready := Recheck(before, look, last);
      }
      Settle(ready, last.now, look.shown.controls);
      assert View() == OnEndPrepare(limits, s, proposed, before, look, last);
      Record(EndPrepare(proposed, before, look, last));
    }

    method CloseSession()
      requires Valid()
      modifies this
      ensures Valid() && phase == Closed && history == old(history) + [Close]
    {
      phase, observation := Closed, None;
      Record(Close);
    }
  }

  lemma BeginEffect(limits: Limits, s: State, urlMatches: bool, reviewed: string, first: Look, before: Look, look: Look)
    requires Inv(limits, s)
    ensures var (t, ok) := BeginStep(limits, s, urlMatches, reviewed, first, before, look);
            && (ok <==> t.phase == Preparing)
            && (ok ==> t.prepareAttempted && t.writes == t.uploads == 0 && !t.fence.preparing && t.prepareRuns == 1)
  {
    RequireActiveEffect(limits, s, first, false);
    ExamineEffect(limits, s, before, look, false);
  }

  lemma {:induction false} BeginOfRun(limits: Limits, fixture: bool, actions: seq<Action>, urlMatches: bool,
                                      reviewed: string, first: Look, before: Look, look: Look)
    ensures var s := Run(limits, fixture, actions);
            var (t, ok) := BeginStep(limits, s, urlMatches, reviewed, first, before, look);
            && (ok <==> t.phase == Preparing)
            && (ok <==> MayPrepare(limits, s, urlMatches, reviewed, first, before, look))
            && (ok ==> t.prepareAttempted && t.writes == t.uploads == 0 && !t.fence.preparing && t.prepareRuns == 1)
            && (ok ==> !t.fence.blocked && t.startedAt == s.startedAt && t.observation == s.observation)
  {
    RunKeepsInv(limits, fixture, actions);
    BeginIff(limits, Run(limits, fixture, actions), urlMatches, reviewed, first, before, look);
    BeginEffect(limits, Run(limits, fixture, actions), urlMatches, reviewed, first, before, look);
  }

  lemma {:induction false} FinalCheckOfRun(limits: Limits, fixture: bool, actions: seq<Action>,
                                           before: Look, look: Look, last: Look)
    ensures var s := Run(limits, fixture, actions); var (t, ok) := FinalCheck(limits, s, before, look, last);
            && (ok ==> t.observation.Some?) && t.writes == s.writes && t.uploads == s.uploads
            && (s.prepareAttempted && s.phase in {Preparing, Expired, Blocked} ==>
                  (ok <==> MayConclude(limits, s, before, look, last)))
  {
    RunKeepsInv(limits, fixture, actions);
    if Run(limits, fixture, actions).prepareAttempted && Run(limits, fixture, actions).phase in {Preparing, Expired, Blocked} {
      ConcludeIff(limits, Run(limits, fixture, actions), true, before, look, last);
    }
    FinalCheckEffect(limits, Run(limits, fixture, actions), before, look, last);
  }

  lemma {:induction false} EnterOfRun(limits: Limits, fixture: bool, actions: seq<Action>, look: Look)
    ensures var s := Run(limits, fixture, actions);
            s.phase == New ==>
              (OnEnter(limits, s, look).phase == Open <==>
               !s.fence.blocked && AllPermitted(s.fence, look.events) && !look.fails && Live(limits, look.now, look))
  {
    RunKeepsInv(limits, fixture, actions);
    EnterIff(limits, Run(limits, fixture, actions), look);
  }

  lemma {:induction false} SurfaceOfRun(limits: Limits, fixture: bool, actions: seq<Action>, before: Look, look: Look,
                                        controls: seq<PageControl>)
    ensures var s := Run(limits, fixture, actions); var (t, ok) := OnSurface(limits, s, before, look, controls);
            && (ok <==> s.phase == Preparing && !s.fence.blocked && SurfaceSeen(limits, s, before, look, controls))
            && (ok ==> t == s) && (t.phase == Preparing ==> t.observation == s.observation)
  {
    RunKeepsInv(limits, fixture, actions);
    SurfaceIff(limits, Run(limits, fixture, actions), before, look, controls);
  }

  lemma FinalCheckEffect(limits: Limits, s: State, before: Look, look: Look, last: Look)
    requires Inv(limits, s)
    ensures FinalCheck(limits, s, before, look, last).1 ==> FinalCheck(limits, s, before, look, last).0.observation.Some?
    ensures FinalCheck(limits, s, before, look, last).0.writes == s.writes
    ensures FinalCheck(limits, s, before, look, last).0.uploads == s.uploads
  {
    ExamineEffect(limits, s, before, look, true);
  }

  /** Events leave the phase and the counters alone. */
  lemma {:induction false} EventsOnlyChangeFence(s: State, events: seq<NetworkEvent>)
    ensures OnEvents(s, events).phase == s.phase
    decreases |events|
  {
    if events != [] {
      var e := events[0];
      var late := s.writes + s.uploads > 0 && Permits(s.fence, e);
      EventsOnlyChangeFence(s.(fence := s.fence.(blocked := s.fence.blocked || !Permits(s.fence, e)),
                               lateRequests := s.lateRequests + if late then 1 else 0), events[1..]);
    }
  }
}
