/**
 The one-use network boundary of the live driver: every request of the browser
 is either a reviewed read, the one armed upload, the one armed application
 POST, or denied. `Step` is what one call does; the second half of the module
 says what any history of calls amounts to, without mentioning the phase.
 */
module NetworkBoundary {
  import opened Wrappers

  /** An argument that should be a string but comes from an untyped caller. */
  datatype Text = Str(value: string) | NotText

  /** An argument that should be a boolean. */
  datatype Flag = Bool(value: bool) | NotBool

  datatype Request = Request(verb: Text, url: Text, resourceType: string, navigation: Flag)

  datatype Phase = Read | Upload | Submit | Closed

  const ORIGIN := "https://jobs.smartrecruiters.com"

  datatype Target = Target(company: string, companyId: string, postingId: string, publicationId: string,
                           requisitionId: string, postingUrl: string)
  {
    function EntryUrl(): string {
      ORIGIN + "/oneclick-ui/company/" + company + "/publication/" + publicationId + "?dcr_ci=" + company
    }

    function ScreeningUrl(): string {
      ORIGIN + "/oneclick-ui/company/" + company + "/publication/" + publicationId + "/screening?dcr_ci=" + company
    }

    function ApplicationUrl(): string {
      ORIGIN + "/oneclick-ui/api/company/" + company + "/publication/" + publicationId + "/application"
    }

    function ResumeUploadUrl(filename: string): string {
      ORIGIN + "/oneclick-ui/api/company/" + companyId + "/attachment/resume?filename=" + filename
    }
  }

  predicate IsPdfName(name: string) {
    && 5 <= |name| <= 132
    && IsAlnum(name[0])
    && (forall i | 0 < i < |name| :: IsAlnum(name[i]) || name[i] in "._-")
    && name[|name| - 4] == '.'
    && name[|name| - 3] in "pP" && name[|name| - 2] in "dD" && name[|name| - 1] in "fF"
  }

  /** What the constructor fixes: the two mutation endpoints and the reviewed reads. */
  datatype Config = Config(uploadUrl: string, applicationUrl: string, navigationUrls: set<string>, readUrls: set<string>)

  function Configure(target: Target, reviewedReads: set<string>, resumeFilename: string): (c: Config)
    requires IsPdfName(resumeFilename)
    ensures c.uploadUrl != c.applicationUrl
  {
    var upload := target.ResumeUploadUrl(resumeFilename);
    var application := target.ApplicationUrl();
    assert upload[|upload| - 1] == resumeFilename[|resumeFilename| - 1];
    assert application[|application| - 1] == 'n';
    var navigation := {target.postingUrl, target.EntryUrl(), target.ScreeningUrl()};
    Config(upload, application, navigation, reviewedReads + navigation)
  }

  datatype State = State(phase: Phase, uploadBegun: bool, submitBegun: bool, blocked: nat, attempts: nat,
                         applicationsAllowed: nat, uploadsAllowed: nat)

  const INITIAL := State(Read, false, false, 0, 0, 0, 0)

  datatype Call = BeginUpload | EndUpload | BeginSubmit | Allows(request: Request)

  predicate Malformed(r: Request) {
    r.verb.NotText? || r.url.NotText?
  }

  predicate IsReadVerb(r: Request) {
    r.verb == Str("GET") || r.verb == Str("HEAD")
  }

  predicate IsPostTo(r: Request, url: string) {
    r.verb == Str("POST") && r.url == Str(url)
  }

  predicate ReadAllowed(c: Config, r: Request)
    requires r.url.Str?
  {
    match r.navigation
    case NotBool => false
    case Bool(true) => r.resourceType == "document" && r.url.value in c.navigationUrls
    case Bool(false) => r.url.value in c.readUrls
  }

  /** The effect of one request, and whether it is let through. */
  function OnRequest(c: Config, s: State, r: Request): (State, bool) {
    if Malformed(r) then (s.(blocked := s.blocked + 1), false)
    else if IsReadVerb(r) then (s, ReadAllowed(c, r))
    else
      var isApplication := IsPostTo(r, c.applicationUrl);
      var seen := if isApplication then s.(attempts := s.attempts + 1) else s;
      var plain := r.navigation == Bool(false) && r.verb == Str("POST");
      if plain && s.phase == Upload && r.url == Str(c.uploadUrl) && s.uploadsAllowed == 0 then
        (seen.(uploadsAllowed := 1), true)
      else if plain && s.phase == Submit && isApplication && seen.attempts == 1 && s.applicationsAllowed == 0 then
        (seen.(applicationsAllowed := 1, phase := Closed), true)
      else
        (seen.(phase := if isApplication then Closed else s.phase, blocked := s.blocked + 1), false)
  }

  /** The new state, and whether the call was accepted (a request let through, a phase change not refused). */
  function Step(c: Config, s: State, call: Call): (State, bool) {
    match call
    case BeginUpload =>
      if s.phase == Read && !s.uploadBegun && !s.submitBegun then (s.(uploadBegun := true, phase := Upload), true)
      else (s, false)
    case EndUpload =>
      if s.phase == Upload then (s.(phase := Read), true) else (s, false)
    case BeginSubmit =>
      if s.phase == Read && !s.submitBegun then (s.(submitBegun := true, phase := Submit), true) else (s, false)
    case Allows(r) => OnRequest(c, s, r)
  }

  // ----- Histories

  function After(c: Config, history: seq<Call>): State {
    if history == [] then INITIAL else Step(c, After(c, history[..|history| - 1]), history[|history| - 1]).0
  }

  /** Whether the `i`-th call of the history was accepted. */
  predicate Accepted(c: Config, history: seq<Call>, i: nat)
    requires i < |history|
  {
    Step(c, After(c, history[..i]), history[i]).1
  }

  predicate IsApplicationPost(c: Config, call: Call) {
    call.Allows? && call.request.verb == Str("POST") && call.request.url == Str(c.applicationUrl)
  }

  predicate IsUploadPost(c: Config, call: Call) {
    call.Allows? && call.request.verb == Str("POST") && call.request.url == Str(c.uploadUrl)
  }

  predicate IsPlain(call: Call) {
    call.Allows? && call.request.navigation == Bool(false)
  }

  /** A call that the boundary has to account for: malformed, or anything but a GET or HEAD. */
  predicate IsCounted(call: Call) {
    call.Allows? && !(call.request.verb in {Str("GET"), Str("HEAD")} && call.request.url.Str?)
  }

  ghost predicate AcceptedBefore(c: Config, history: seq<Call>, i: nat, call: Call)
    requires i <= |history|
  {
    exists j | 0 <= j < i :: history[j] == call && Accepted(c, history, j)
  }

  ghost predicate ApplicationPostBefore(c: Config, history: seq<Call>, i: nat)
    requires i <= |history|
  {
    exists j | 0 <= j < i :: IsApplicationPost(c, history[j])
  }

  ghost predicate UploadPassedBefore(c: Config, history: seq<Call>, i: nat)
    requires i <= |history|
  {
    exists j | 0 <= j < i :: IsUploadPost(c, history[j]) && Accepted(c, history, j)
  }

  function CountedCalls(history: seq<Call>): nat {
    if history == [] then 0
    else CountedCalls(history[..|history| - 1]) + if IsCounted(history[|history| - 1]) then 1 else 0
  }

  function ApplicationPosts(c: Config, history: seq<Call>): nat {
    if history == [] then 0
    else ApplicationPosts(c, history[..|history| - 1]) + if IsApplicationPost(c, history[|history| - 1]) then 1 else 0
  }

  /** What the history predicates say about a whole history. */
  datatype Facts = Facts(uploadBegun: bool, uploadEnded: bool, submitBegun: bool, applicationSeen: bool,
                         uploadPassed: bool, applicationPosts: nat, counted: nat)

  ghost function FactsOf(c: Config, history: seq<Call>): Facts {
    var n := |history|;
    Facts(AcceptedBefore(c, history, n, BeginUpload), AcceptedBefore(c, history, n, EndUpload),
          AcceptedBefore(c, history, n, BeginSubmit), ApplicationPostBefore(c, history, n),
          UploadPassedBefore(c, history, n), ApplicationPosts(c, history), CountedCalls(history))
  }

  /** Every field of the state is determined by those facts. */
  ghost predicate Describes(f: Facts, s: State) {
    && s.uploadBegun == f.uploadBegun
    && s.submitBegun == f.submitBegun
    && (f.uploadEnded ==> f.uploadBegun)
    && s.phase == (if f.applicationSeen then Closed
                   else if f.submitBegun then Submit
                   else if f.uploadBegun && !f.uploadEnded then Upload
                   else Read)
    && (f.submitBegun && f.uploadBegun ==> f.applicationSeen || f.uploadEnded)
    && s.uploadsAllowed == (if f.uploadPassed then 1 else 0)
    && s.applicationsAllowed <= 1
    && s.attempts == f.applicationPosts
    && (s.attempts == 0 <==> !f.applicationSeen)
    && (s.applicationsAllowed == 1 ==> f.submitBegun && f.applicationSeen)
    && s.blocked + s.uploadsAllowed + s.applicationsAllowed == f.counted
    && s.attempts <= s.applicationsAllowed + s.blocked
  }

  /** One more call, accepted or not, in terms of facts. */
  ghost function Extend(c: Config, f: Facts, call: Call, accepted: bool): Facts {
    Facts(f.uploadBegun || (call == BeginUpload && accepted), f.uploadEnded || (call == EndUpload && accepted),
          f.submitBegun || (call == BeginSubmit && accepted), f.applicationSeen || IsApplicationPost(c, call),
          f.uploadPassed || (IsUploadPost(c, call) && accepted),
          f.applicationPosts + (if IsApplicationPost(c, call) then 1 else 0),
          f.counted + (if IsCounted(call) then 1 else 0))
  }

  lemma RequestKeepsDescription(c: Config, f: Facts, s: State, r: Request)
    requires c.uploadUrl != c.applicationUrl && Describes(f, s)
    ensures Describes(Extend(c, f, Allows(r), OnRequest(c, s, r).1), OnRequest(c, s, r).0)
  {
  }

  lemma StepKeepsDescription(c: Config, f: Facts, s: State, call: Call)
    requires c.uploadUrl != c.applicationUrl && Describes(f, s)
    ensures Describes(Extend(c, f, call, Step(c, s, call).1), Step(c, s, call).0)
  {
    if call.Allows? {
      RequestKeepsDescription(c, f, s, call.request);
    }
  }

  lemma PrefixAccepts(c: Config, history: seq<Call>)
    requires history != []
    ensures forall j | 0 <= j < |history| - 1 ::
              Accepted(c, history, j) == Accepted(c, history[..|history| - 1], j)
  {
    forall j | 0 <= j < |history| - 1
      ensures Accepted(c, history, j) == Accepted(c, history[..|history| - 1], j)
    {
      assert history[..|history| - 1][..j] == history[..j];
    }
  }

  lemma AcceptedExtends(c: Config, history: seq<Call>, call: Call)
    requires history != []
    ensures var n := |history| - 1;
            AcceptedBefore(c, history, n + 1, call) <==>
            AcceptedBefore(c, history[..n], n, call) || (history[n] == call && Accepted(c, history, n))
  {
    PrefixAccepts(c, history);
  }

  lemma PostsExtend(c: Config, history: seq<Call>)
    requires history != []
    ensures var n := |history| - 1;
            && (ApplicationPostBefore(c, history, n + 1) <==>
                ApplicationPostBefore(c, history[..n], n) || IsApplicationPost(c, history[n]))
            && (UploadPassedBefore(c, history, n + 1) <==>
                UploadPassedBefore(c, history[..n], n) || (IsUploadPost(c, history[n]) && Accepted(c, history, n)))
  {
    PrefixAccepts(c, history);
  }

  lemma FactsExtend(c: Config, history: seq<Call>)
    requires history != []
    ensures var n := |history| - 1;
            FactsOf(c, history) == Extend(c, FactsOf(c, history[..n]), history[n], Accepted(c, history, n))
  {
    AcceptedExtends(c, history, BeginUpload);
    AcceptedExtends(c, history, EndUpload);
    AcceptedExtends(c, history, BeginSubmit);
    PostsExtend(c, history);
  }

  lemma {:induction false} HistoryDescribesState(c: Config, history: seq<Call>)
    requires c.uploadUrl != c.applicationUrl
    ensures Describes(FactsOf(c, history), After(c, history))
  {
    if history != [] {
      var n := |history| - 1;
      HistoryDescribesState(c, history[..n]);
      StepKeepsDescription(c, FactsOf(c, history[..n]), After(c, history[..n]), history[n]);
      FactsExtend(c, history);
    }
  }

  // ----- What the boundary guarantees, as statements about histories

  lemma FactsOfPrefix(c: Config, history: seq<Call>, i: nat)
    requires i <= |history|
    ensures var f := FactsOf(c, history[..i]);
            && f.uploadBegun == AcceptedBefore(c, history, i, BeginUpload)
            && f.uploadEnded == AcceptedBefore(c, history, i, EndUpload)
            && f.submitBegun == AcceptedBefore(c, history, i, BeginSubmit)
            && f.applicationSeen == ApplicationPostBefore(c, history, i)
            && f.uploadPassed == UploadPassedBefore(c, history, i)
  {
    forall j | 0 <= j < i
      ensures Accepted(c, history[..i], j) == Accepted(c, history, j)
    {
      assert history[..i][..j] == history[..j];
    }
  }

  /** Which POST a described state accepts, in terms of the facts. */
  lemma StepAcceptsIff(c: Config, f: Facts, s: State, call: Call)
    requires c.uploadUrl != c.applicationUrl && Describes(f, s)
    ensures IsApplicationPost(c, call) ==>
              (Step(c, s, call).1 <==> IsPlain(call) && !f.applicationSeen && f.submitBegun)
    ensures IsUploadPost(c, call) ==>
              (Step(c, s, call).1 <==>
                 IsPlain(call) && f.uploadBegun && !f.uploadEnded && !f.applicationSeen && !f.uploadPassed)
  {
  }

  /**
   An application POST is let through exactly when it is the first exact
   application POST of the whole history, is not a navigation, and the submit
   phase was armed before it.
   */
  lemma ApplicationPostAllowedIff(c: Config, history: seq<Call>, i: nat)
    requires c.uploadUrl != c.applicationUrl
    requires i < |history| && IsApplicationPost(c, history[i])
    ensures Accepted(c, history, i) <==>
            IsPlain(history[i]) && !ApplicationPostBefore(c, history, i) && AcceptedBefore(c, history, i, BeginSubmit)
  {
    HistoryDescribesState(c, history[..i]);
    FactsOfPrefix(c, history, i);
    StepAcceptsIff(c, FactsOf(c, history[..i]), After(c, history[..i]), history[i]);
  }

  /** An upload POST is let through exactly when it is the first one inside the one open upload window. */
  lemma UploadPostAllowedIff(c: Config, history: seq<Call>, i: nat)
    requires c.uploadUrl != c.applicationUrl
    requires i < |history| && IsUploadPost(c, history[i])
    ensures Accepted(c, history, i) <==>
            && IsPlain(history[i])
            && AcceptedBefore(c, history, i, BeginUpload)
            && !AcceptedBefore(c, history, i, EndUpload)
            && !ApplicationPostBefore(c, history, i)
            && !UploadPassedBefore(c, history, i)
  {
    HistoryDescribesState(c, history[..i]);
    FactsOfPrefix(c, history, i);
    StepAcceptsIff(c, FactsOf(c, history[..i]), After(c, history[..i]), history[i]);
  }

  /** No other write ever passes. */
  lemma OtherWritesDenied(c: Config, history: seq<Call>, i: nat)
    requires i < |history| && IsCounted(history[i])
    requires !IsApplicationPost(c, history[i]) && !IsUploadPost(c, history[i])
    ensures !Accepted(c, history, i)
  {
  }

  /**
   A GET or HEAD is let through exactly when it is a document navigation to one
   of the pages of the target, or no navigation and for a reviewed address; a
   navigation flag that is no boolean is refused. A read never changes a field.
   */
  lemma {:induction false} ReadAllowedIff(c: Config, history: seq<Call>, i: nat, url: string)
    requires i < |history| && history[i].Allows?
    requires history[i].request.verb == Str("GET") || history[i].request.verb == Str("HEAD")
    requires history[i].request.url == Str(url)
    ensures Accepted(c, history, i) <==>
            || (history[i].request.navigation == Bool(true) && history[i].request.resourceType == "document"
                && url in c.navigationUrls)
            || (history[i].request.navigation == Bool(false) && url in c.readUrls)
    ensures After(c, history[..i + 1]) == After(c, history[..i])
  {
    assert history[..i + 1][..i] == history[..i];
  }

  /** What the constructor fixes: two distinct mutation endpoints, three pages, and the pages plus the reviewed reads. */
  lemma ConfigureIs(target: Target, reviewedReads: set<string>, resumeFilename: string, url: string)
    requires IsPdfName(resumeFilename)
    ensures var c := Configure(target, reviewedReads, resumeFilename);
            && c.uploadUrl == target.ResumeUploadUrl(resumeFilename) && c.applicationUrl == target.ApplicationUrl()
            && c.uploadUrl != c.applicationUrl
            && (url in c.navigationUrls <==> url == target.postingUrl || url == target.EntryUrl() || url == target.ScreeningUrl())
            && (url in c.readUrls <==> url in c.navigationUrls || url in reviewedReads)
  {
  }

  /** The phase changes: at most one upload window, at most one arming, none after an application POST. */
  lemma PhaseChangeAcceptedIff(c: Config, history: seq<Call>, i: nat)
    requires c.uploadUrl != c.applicationUrl && i < |history|
    ensures var inUpload := AcceptedBefore(c, history, i, BeginUpload) && !AcceptedBefore(c, history, i, EndUpload);
            var armed := AcceptedBefore(c, history, i, BeginSubmit);
            var seen := ApplicationPostBefore(c, history, i);
            match history[i]
            case BeginUpload =>
              Accepted(c, history, i) <==> !seen && !armed && !AcceptedBefore(c, history, i, BeginUpload)
            case EndUpload => Accepted(c, history, i) <==> !seen && inUpload
            case BeginSubmit => Accepted(c, history, i) <==> !seen && !armed && !inUpload
            case Allows(_) => true
  {
    HistoryDescribesState(c, history[..i]);
    FactsOfPrefix(c, history, i);
  }

  /** Over the whole life of a boundary at most one application POST and at most one upload pass. */
  lemma AtMostOneOfEach(c: Config, history: seq<Call>, i: nat, j: nat)
    requires c.uploadUrl != c.applicationUrl
    requires i < j < |history| && Accepted(c, history, i) && Accepted(c, history, j)
    ensures !(IsApplicationPost(c, history[i]) && IsApplicationPost(c, history[j]))
    ensures !(IsUploadPost(c, history[i]) && IsUploadPost(c, history[j]))
  {
    if IsApplicationPost(c, history[i]) && IsApplicationPost(c, history[j]) {
      ApplicationPostAllowedIff(c, history, j);
      assert ApplicationPostBefore(c, history, j);
    }
    if IsUploadPost(c, history[i]) && IsUploadPost(c, history[j]) {
      UploadPostAllowedIff(c, history, j);
      assert UploadPassedBefore(c, history, j);
    }
  }

  /** "closed" absorbs: once reached, no continuation of the history leaves it or lets another write pass. */
  lemma {:induction false} ClosedIsAbsorbing(c: Config, history: seq<Call>, more: seq<Call>)
    requires After(c, history).phase == Closed
    ensures After(c, history + more).phase == Closed
    ensures After(c, history + more).applicationsAllowed == After(c, history).applicationsAllowed
    ensures After(c, history + more).uploadsAllowed == After(c, history).uploadsAllowed
  {
    if more == [] {
      assert history + more == history;
    } else {
      var m := |more| - 1;
      ClosedIsAbsorbing(c, history, more[..m]);
      assert (history + more)[..|history + more| - 1] == history + more[..m];
    }
  }

  /** Conservation: what was not a read was either blocked or is one of the two permitted writes. */
  lemma {:induction false} EveryWriteAccounted(c: Config, history: seq<Call>)
    requires c.uploadUrl != c.applicationUrl
    ensures var s := After(c, history);
            && s.blocked + s.uploadsAllowed + s.applicationsAllowed == CountedCalls(history)
            && s.attempts == ApplicationPosts(c, history)
  {
    HistoryDescribesState(c, history);
  }

  // ----- Streams of requests between two phase changes

  function AfterRequests(c: Config, s: State, requests: seq<Request>): State {
    if requests == [] then s
    else OnRequest(c, AfterRequests(c, s, requests[..|requests| - 1]), requests[|requests| - 1]).0
  }

  /** Nothing but well-formed reads, whether they are let through or not. */
  ghost predicate OnlyReads(requests: seq<Request>) {
    forall r | r in requests :: !IsCounted(Allows(r))
  }

  /** Reads, and plain POSTs to one address. */
  ghost predicate OnlyPostsTo(url: string, requests: seq<Request>) {
    forall r | r in requests && IsCounted(Allows(r)) ::
      r.verb == Str("POST") && r.url == Str(url) && r.navigation == Bool(false)
  }

  function Counted(requests: seq<Request>): nat {
    if requests == [] then 0
    else Counted(requests[..|requests| - 1]) + if IsCounted(Allows(requests[|requests| - 1])) then 1 else 0
  }

  lemma {:induction false} DenialsRemain(c: Config, s: State, requests: seq<Request>)
    ensures AfterRequests(c, s, requests).blocked >= s.blocked
  {
    if requests != [] {
      DenialsRemain(c, s, requests[..|requests| - 1]);
    }
  }

  lemma LastIsOne(requests: seq<Request>)
    requires requests != []
    ensures forall r :: r in requests <==> r in requests[..|requests| - 1] || r == requests[|requests| - 1]
  {
    var n := |requests| - 1;
    assert requests == requests[..n] + [requests[n]];
  }

  lemma OneRequest(c: Config, s: State, r: Request)
    requires c.uploadUrl != c.applicationUrl
    ensures OnRequest(c, s, r).0.blocked >= s.blocked
    ensures !IsCounted(Allows(r)) ==> OnRequest(c, s, r).0 == s
    ensures OnRequest(c, s, r).0.blocked == s.blocked && IsCounted(Allows(r)) ==>
              && r.verb == Str("POST") && r.navigation == Bool(false)
              && ((s.phase == Upload && r.url == Str(c.uploadUrl) && s.uploadsAllowed == 0)
                  || (s.phase == Submit && r.url == Str(c.applicationUrl) && s.attempts == 0))
    ensures r.verb == Str("POST") && r.navigation == Bool(false) ==>
              && (s.phase == Upload && r.url == Str(c.uploadUrl) && s.uploadsAllowed == 0 ==>
                    OnRequest(c, s, r).0 == s.(uploadsAllowed := 1))
              && (s.phase == Submit && r.url == Str(c.applicationUrl) && s.attempts == s.applicationsAllowed == 0 ==>
                    OnRequest(c, s, r).0 == s.(attempts := 1, applicationsAllowed := 1, phase := Closed))
  {
  }

  /** Outside the two windows nothing is denied exactly as long as the page only reads, and then nothing changes. */
  lemma {:induction false} ReadPhaseIsQuietIff(c: Config, s: State, requests: seq<Request>)
    requires c.uploadUrl != c.applicationUrl && s.phase == Read && s.blocked == 0
    ensures AfterRequests(c, s, requests).blocked == 0 <==> OnlyReads(requests)
    ensures OnlyReads(requests) ==> AfterRequests(c, s, requests) == s
  {
    if requests != [] {
      var n := |requests| - 1;
      ReadPhaseIsQuietIff(c, s, requests[..n]);
      LastIsOne(requests);
      OneRequest(c, AfterRequests(c, s, requests[..n]), requests[n]);
    }
  }

  /** Inside the upload window nothing is denied exactly as long as the page only reads and uploads once at most. */
  lemma {:induction false} UploadPhaseIsQuietIff(c: Config, s: State, requests: seq<Request>)
    requires c.uploadUrl != c.applicationUrl
    requires s.phase == Upload && s.blocked == 0 && s.uploadsAllowed == 0
    ensures AfterRequests(c, s, requests).blocked == 0 <==> OnlyPostsTo(c.uploadUrl, requests) && Counted(requests) <= 1
    ensures OnlyPostsTo(c.uploadUrl, requests) && Counted(requests) <= 1 ==>
              AfterRequests(c, s, requests) == s.(uploadsAllowed := Counted(requests))
  {
    if requests != [] {
      var n := |requests| - 1;
      UploadPhaseIsQuietIff(c, s, requests[..n]);
      LastIsOne(requests);
      OneRequest(c, AfterRequests(c, s, requests[..n]), requests[n]);
    }
  }

  /** Once armed, nothing is denied exactly as long as the page only reads and applies once at most. */
  lemma {:induction false} SubmitPhaseIsQuietIff(c: Config, s: State, requests: seq<Request>)
    requires c.uploadUrl != c.applicationUrl
    requires s.phase == Submit && s.blocked == s.attempts == s.applicationsAllowed == 0
    ensures AfterRequests(c, s, requests).blocked == 0 <==>
            OnlyPostsTo(c.applicationUrl, requests) && Counted(requests) <= 1
    ensures OnlyPostsTo(c.applicationUrl, requests) && Counted(requests) <= 1 ==>
              AfterRequests(c, s, requests) == s.(attempts := Counted(requests), applicationsAllowed := Counted(requests),
                                                  phase := if Counted(requests) == 0 then Submit else Closed)
  {
    if requests != [] {
      var n := |requests| - 1;
      SubmitPhaseIsQuietIff(c, s, requests[..n]);
      LastIsOne(requests);
      OneRequest(c, AfterRequests(c, s, requests[..n]), requests[n]);
    }
  }

  /** The boundary object: the fields the driver's callbacks update, and the history that explains them. */
  class OneClickNetworkBoundary {
    const config: Config
    var phase: Phase
    var uploadBegun: bool
    var submitBegun: bool
    var blockedWriteCount: nat
    var applicationAttempts: nat
    var applicationRequestsAllowed: nat
    var uploadRequestsAllowed: nat
    ghost var history: seq<Call>

    ghost function View(): State
      reads this
    {
      State(phase, uploadBegun, submitBegun, blockedWriteCount, applicationAttempts, applicationRequestsAllowed,
            uploadRequestsAllowed)
    }

    ghost predicate Valid()
      reads this
    {
      && config.uploadUrl != config.applicationUrl
      && View() == After(config, history)
    }

    constructor (target: Target, reviewedReads: set<string>, resumeFilename: string)
      requires IsPdfName(resumeFilename)
      ensures Valid() && history == [] && config == Configure(target, reviewedReads, resumeFilename)
    {
      config := Configure(target, reviewedReads, resumeFilename);
      phase := Read;
      uploadBegun, submitBegun := false, false;
      blockedWriteCount, applicationAttempts := 0, 0;
      applicationRequestsAllowed, uploadRequestsAllowed := 0, 0;
      history := [];
    }

    /** Accepted when true; the refusal of the original is the false result. */
    method BeginUploadPhase() returns (accepted: bool)
      requires Valid()
      modifies this
      ensures Valid() && history == old(history) + [BeginUpload]
      ensures (View(), accepted) == Step(config, old(View()), BeginUpload)
      ensures accepted == Accepted(config, history, |history| - 1)
    {
      ghost var past := history;
      history := history + [BeginUpload];
      assert history[..|history| - 1] == past;
      if phase != Read || uploadBegun || submitBegun {
        return false;
      }
      uploadBegun := true;
      phase := Upload;
      return true;
    }

    method EndUploadPhase() returns (accepted: bool)
      requires Valid()
      modifies this
      ensures Valid() && history == old(history) + [EndUpload]
      ensures (View(), accepted) == Step(config, old(View()), EndUpload)
      ensures accepted == Accepted(config, history, |history| - 1)
    {
      ghost var past := history;
      history := history + [EndUpload];
      assert history[..|history| - 1] == past;
      if phase != Upload {
        return false;
      }
      phase := Read;
      return true;
    }

    method BeginSubmitPhase() returns (accepted: bool)
      requires Valid()
      modifies this
      ensures Valid() && history == old(history) + [BeginSubmit]
      ensures (View(), accepted) == Step(config, old(View()), BeginSubmit)
      ensures accepted == Accepted(config, history, |history| - 1)
    {
      ghost var past := history;
      history := history + [BeginSubmit];
      assert history[..|history| - 1] == past;
      if phase != Read || submitBegun {
        return false;
      }
      submitBegun := true;
      phase := Submit;
      return true;
    }

    method AllowsRequest(r: Request) returns (allowed: bool)
      requires Valid()
      modifies this
      ensures Valid() && history == old(history) + [Allows(r)]
      ensures (View(), allowed) == Step(config, old(View()), Allows(r))
      ensures allowed == Accepted(config, history, |history| - 1)
    {
      ghost var past := history;
      history := history + [Allows(r)];
      assert history[..|history| - 1] == past;
      if r.verb.NotText? || r.url.NotText? {
        blockedWriteCount := blockedWriteCount + 1;
        return false;
      }
      if r.verb.value == "GET" || r.verb.value == "HEAD" {
        if r.navigation.NotBool? {
          return false;
        }
        if r.navigation.value {
          return r.resourceType == "document" && r.url.value in config.navigationUrls;
        }
        return r.url.value in config.readUrls;
      }
      var isApplication := r.verb.value == "POST" && r.url.value == config.applicationUrl;
      if isApplication {
        applicationAttempts := applicationAttempts + 1;
      }
      if r.navigation == Bool(false) && r.verb.value == "POST" {
        if phase == Upload && r.url.value == config.uploadUrl && uploadRequestsAllowed == 0 {
          uploadRequestsAllowed := uploadRequestsAllowed + 1;
          return true;
        }
        if phase == Submit && r.url.value == config.applicationUrl
           && applicationAttempts == 1 && applicationRequestsAllowed == 0 {
          applicationRequestsAllowed := applicationRequestsAllowed + 1;
          phase := Closed;
          return true;
        }
      }
      if isApplication {
        phase := Closed;
      }
      blockedWriteCount := blockedWriteCount + 1;
      return false;
    }
  }
}
