/** Publishing the confirmed outcome file: write a private temporary file, link it to the target exclusively, unlink it. */
module OutcomePublish {
  import opened Wrappers
  import L = SubmissionLedger
  import P = SubmissionProtocol

  // Any number of publishers interleave step by step, and each may fail or crash
  // at every point. Temporary names are random and never collide, so a
  // publisher's file is known by its owner.

  type Bytes = seq<bv8>

  const MAX_BYTES := 8192

  /** A file being or having been written: its bytes, and whether its temporary name is still there. */
  datatype File = File(bytes: Bytes, tempLinked: bool)

  /** `target` is the publisher whose file is linked under the public name. */
  datatype Disk = Disk(target: Option<nat>, files: map<nat, File>)

  function LinkCount(d: Disk, owner: nat): nat {
    (if owner in d.files && d.files[owner].tempLinked then 1 else 0) + (if d.target == Some(owner) then 1 else 0)
  }

  /** `_private_file`: the checks of the original that depend on content and links. */
  predicate IsPrivate(d: Disk, owner: nat) {
    owner in d.files && LinkCount(d, owner) == 1 && 0 < |d.files[owner].bytes| <= MAX_BYTES
  }

  /** Why the existing target is being compared, which decides what a match returns. */
  datatype Purpose = BeforeWriting | AfterLosing | AfterPublishing

  datatype Pc = Opened | Absent | Writing | Synced | Linked | Unlinked | Lost | Comparing(purpose: Purpose)
              | Leaving(result: Option<bool>) | Returned(wrote: bool) | Raised | Crashed

  datatype Publisher = Publisher(payload: Bytes, pc: Pc)

  datatype State = State(disk: Disk, publishers: map<nat, Publisher>)

  const INITIAL := State(Disk(None, map[]), map[])

  datatype Action =
    | Open(p: nat, payload: Bytes)
    | Examine(p: nat)
    | Compare(p: nat)
    | CreateTemp(p: nat)
    | WriteSome(p: nat, count: int)
    | SyncTemp(p: nat)
    | LinkTarget(p: nat)
    | UnlinkTemp(p: nat)
    | Leave(p: nat, cleaned: bool)
    | IoError(p: nat)
    | Crash(p: nat)

  predicate Running(pc: Pc) {
    !pc.Returned? && !pc.Raised? && !pc.Crashed?
  }

  predicate At(s: State, p: nat, pc: Pc) {
    p in s.publishers && s.publishers[p].pc == pc
  }

  function Put(s: State, p: nat, pc: Pc): State
    requires p in s.publishers
  {
    s.(publishers := s.publishers[p := s.publishers[p].(pc := pc)])
  }

  function PutFile(s: State, p: nat, f: File): State {
    s.(disk := s.disk.(files := s.disk.files[p := f]))
  }

  /** The first half of `_existing_matches`: is the target there, and is it a private file? */
  function OnExamine(s: State, p: nat): State {
    if p !in s.publishers || s.publishers[p].pc !in {Opened, Lost, Unlinked} then s
    else
      var pc := s.publishers[p].pc;
      var purpose := if pc == Opened then BeforeWriting else if pc == Lost then AfterLosing else AfterPublishing;
      match s.disk.target
      case None => Put(s, p, if pc == Opened then Absent else Leaving(None))
      case Some(owner) => Put(s, p, if IsPrivate(s.disk, owner) then Comparing(purpose) else Leaving(None))
  }

  /** The second half: examine again, and compare all bytes. */
  function OnCompare(s: State, p: nat): State {
    if p !in s.publishers || !s.publishers[p].pc.Comparing? then s
    else
      match s.disk.target
      case None => Put(s, p, Leaving(None))
      case Some(owner) =>
        var same := IsPrivate(s.disk, owner) && s.disk.files[owner].bytes == s.publishers[p].payload;
        Put(s, p, Leaving(if same then Some(s.publishers[p].pc.purpose == AfterPublishing) else None))
  }

  /** One `os.write`: it takes some of what remains, or fails to make progress. */
  function OnWrite(s: State, p: nat, count: int): State {
    if !At(s, p, Writing) || p !in s.disk.files then s
    else
      var done := |s.disk.files[p].bytes|;
      var payload := s.publishers[p].payload;
      if count > |payload| - done || done >= |payload| then s
      else if count <= 0 then Put(s, p, Leaving(None))
      else PutFile(s, p, s.disk.files[p].(bytes := s.disk.files[p].bytes + payload[done..done + count]))
  }

  /** `link()` is atomic and refuses an existing name. */
  function OnLink(s: State, p: nat): State {
    if !At(s, p, Synced) then s
    else if s.disk.target.Some? then Put(s, p, Lost)
    else Put(s, p, Linked).(disk := s.disk.(target := Some(p)))
  }

  /** The `finally` clause: remove the temporary name if it is still ours, then return or raise. */
  function OnLeave(s: State, p: nat, cleaned: bool): State {
    if p !in s.publishers || !s.publishers[p].pc.Leaving? then s
    else
      var result := s.publishers[p].pc.result;
      if p in s.disk.files && s.disk.files[p].tempLinked then
        if !cleaned then Put(s, p, Raised)
        else PutFile(Put(s, p, if result.None? then Raised else Returned(result.value)), p,
                     s.disk.files[p].(tempLinked := false))
      else Put(s, p, if result.None? then Raised else Returned(result.value))
  }

  function Next(s: State, a: Action): State {
    match a
    case Open(p, payload) =>
      if p in s.publishers then s else s.(publishers := s.publishers[p := Publisher(payload, Opened)])
    case Examine(p) => OnExamine(s, p)
    case Compare(p) => OnCompare(s, p)
    case CreateTemp(p) => if At(s, p, Absent) then PutFile(Put(s, p, Writing), p, File([], true)) else s
    case WriteSome(p, count) => OnWrite(s, p, count)
    case SyncTemp(p) =>
      if At(s, p, Writing) && p in s.disk.files && |s.disk.files[p].bytes| == |s.publishers[p].payload| then
        Put(s, p, Synced)
      else s
    case LinkTarget(p) => OnLink(s, p)
    case UnlinkTemp(p) =>
      if At(s, p, Linked) && p in s.disk.files then
        PutFile(Put(s, p, Unlinked), p, s.disk.files[p].(tempLinked := false))
      else s
    case Leave(p, cleaned) => OnLeave(s, p, cleaned)
    case IoError(p) => if p in s.publishers && Running(s.publishers[p].pc) then Put(s, p, Leaving(None)) else s
    case Crash(p) => if p in s.publishers && Running(s.publishers[p].pc) then Put(s, p, Crashed) else s
  }

  function Execute(trace: seq<Action>): State {
    if trace == [] then INITIAL else Next(Execute(trace[..|trace| - 1]), trace[|trace| - 1])
  }

  // ----- The invariant

  /** The target exists, is its owner's complete payload, and has lost its temporary name. */
  ghost predicate Settled(s: State) {
    && s.disk.target.Some? && s.disk.target.value in s.disk.files
    && !s.disk.files[s.disk.target.value].tempLinked
  }

  ghost predicate PublisherOk(s: State, p: nat, q: Publisher) {
    && (p in s.disk.files ==> s.disk.files[p].bytes <= q.payload)
    && (s.disk.target == Some(p) ==> p in s.disk.files && s.disk.files[p].bytes == q.payload)
    && (s.disk.target == Some(p) ==> q.pc !in {Opened, Absent, Writing, Synced, Lost})
    && match q.pc
       case Opened => p !in s.disk.files
       case Absent => p !in s.disk.files
       case Writing => p in s.disk.files && s.disk.files[p].tempLinked
       case Synced => p in s.disk.files && s.disk.files[p].bytes == q.payload
       case Linked => s.disk.target == Some(p)
       case Unlinked => s.disk.target == Some(p) && Settled(s)
       case Comparing(purpose) =>
         && (purpose == AfterPublishing <==> s.disk.target == Some(p))
         && (purpose == AfterPublishing ==> Settled(s))
       case Leaving(Some(wrote)) => Settled(s) && Matches(s, q) && (wrote ==> s.disk.target == Some(p))
       case Returned(wrote) => Settled(s) && Matches(s, q) && (wrote ==> s.disk.target == Some(p))
       case _ => true
  }

  /** The visible bytes are this publisher's whole payload. */
  ghost predicate Matches(s: State, q: Publisher) {
    s.disk.target.Some? && s.disk.target.value in s.disk.files && s.disk.files[s.disk.target.value].bytes == q.payload
  }

  ghost predicate Inv(s: State) {
    && (forall p | p in s.disk.files :: p in s.publishers)
    && (s.disk.target.Some? ==> s.disk.target.value in s.publishers && s.disk.target.value in s.disk.files)
    && (forall p | p in s.publishers :: PublisherOk(s, p, s.publishers[p]))
  }

  /** Nothing recorded under the public name is ever altered. */
  ghost predicate Preserves(s: State, t: State) {
    && (s.disk.target.Some? && s.disk.target.value in s.disk.files ==>
          && t.disk.target == s.disk.target && t.disk.target.value in t.disk.files
          && t.disk.files[t.disk.target.value].bytes == s.disk.files[s.disk.target.value].bytes
          && (!s.disk.files[s.disk.target.value].tempLinked ==> !t.disk.files[t.disk.target.value].tempLinked))
    && (forall p | p in s.publishers :: p in t.publishers && t.publishers[p].payload == s.publishers[p].payload
                                        && (!Running(s.publishers[p].pc) ==> t.publishers[p] == s.publishers[p]))
  }

  /** A step of one publisher that leaves the target and all other files alone keeps the others' clauses. */
  lemma OthersUndisturbed(s: State, t: State, p: nat)
    requires Inv(s) && p in t.publishers && PublisherOk(t, p, t.publishers[p])
    requires Preserves(s, t)
    requires forall q | q != p :: (q in t.publishers <==> q in s.publishers) && (q in t.disk.files <==> q in s.disk.files)
    requires forall q | q != p && q in s.publishers :: t.publishers[q] == s.publishers[q]
    requires forall q | q != p && q in s.disk.files :: t.disk.files[q] == s.disk.files[q]
    requires t.disk.target == s.disk.target || (s.disk.target.None? && t.disk.target == Some(p))
    requires t.disk.target == Some(p) ==> p in t.disk.files
    ensures Inv(t)
  {
    forall q | q in t.publishers
      ensures PublisherOk(t, q, t.publishers[q])
    {
      if q != p {
        assert PublisherOk(s, q, s.publishers[q]);
      }
    }
  }

  lemma ExamineKeepsInv(s: State, p: nat)
    requires Inv(s)
    ensures Inv(OnExamine(s, p)) && Preserves(s, OnExamine(s, p))
  {
    if p in s.publishers && s.publishers[p].pc in {Opened, Lost, Unlinked} {
      assert PublisherOk(s, p, s.publishers[p]);
      OthersUndisturbed(s, OnExamine(s, p), p);
    }
  }

  lemma CompareKeepsInv(s: State, p: nat)
    requires Inv(s)
    ensures Inv(OnCompare(s, p)) && Preserves(s, OnCompare(s, p))
  {
    if p in s.publishers && s.publishers[p].pc.Comparing? {
      assert PublisherOk(s, p, s.publishers[p]);
      OthersUndisturbed(s, OnCompare(s, p), p);
    }
  }

  lemma WriteKeepsInv(s: State, p: nat, count: int)
    requires Inv(s)
    ensures Inv(OnWrite(s, p, count)) && Preserves(s, OnWrite(s, p, count))
  {
    if p in s.publishers {
      assert PublisherOk(s, p, s.publishers[p]);
      OthersUndisturbed(s, OnWrite(s, p, count), p);
    }
  }

  lemma LinkKeepsInv(s: State, p: nat)
    requires Inv(s)
    ensures Inv(OnLink(s, p)) && Preserves(s, OnLink(s, p))
  {
    if p in s.publishers {
      assert PublisherOk(s, p, s.publishers[p]);
      OthersUndisturbed(s, OnLink(s, p), p);
    }
  }

  lemma LeaveKeepsInv(s: State, p: nat, cleaned: bool)
    requires Inv(s)
    ensures Inv(OnLeave(s, p, cleaned)) && Preserves(s, OnLeave(s, p, cleaned))
  {
    if p in s.publishers {
      assert PublisherOk(s, p, s.publishers[p]);
      OthersUndisturbed(s, OnLeave(s, p, cleaned), p);
    }
  }

  lemma NextKeepsInv(s: State, a: Action)
    requires Inv(s)
    ensures Inv(Next(s, a)) && Preserves(s, Next(s, a))
  {
    match a
    case Examine(p) => ExamineKeepsInv(s, p);
    case Compare(p) => CompareKeepsInv(s, p);
    case WriteSome(p, count) => WriteKeepsInv(s, p, count);
    case LinkTarget(p) => LinkKeepsInv(s, p);
    case Leave(p, cleaned) => LeaveKeepsInv(s, p, cleaned);
    case Open(p, _) =>
      if p !in s.publishers { OthersUndisturbed(s, Next(s, a), p); }
    case CreateTemp(p) =>
      if At(s, p, Absent) { StepOnKeepsInv(s, Next(s, a), p); }
    case SyncTemp(p) =>
      if Next(s, a) != s { StepOnKeepsInv(s, Next(s, a), p); }
    case UnlinkTemp(p) =>
      if Next(s, a) != s { StepOnKeepsInv(s, Next(s, a), p); }
    case IoError(p) =>
      if Next(s, a) != s { StepOnKeepsInv(s, Next(s, a), p); }
    case Crash(p) =>
      if Next(s, a) != s { StepOnKeepsInv(s, Next(s, a), p); }
  }

  /** The short steps: of `p` only its program counter and its own file change. */
  lemma StepOnKeepsInv(s: State, t: State, p: nat)
    requires Inv(s) && p in s.publishers && Running(s.publishers[p].pc)
    requires p in t.publishers && t.publishers == s.publishers[p := s.publishers[p].(pc := t.publishers[p].pc)]
    requires t.disk.target == s.disk.target
    requires t.disk == s.disk || (p in t.disk.files && t.disk.files == s.disk.files[p := t.disk.files[p]])
    requires PublisherOk(s, p, s.publishers[p]) ==> PublisherOk(t, p, t.publishers[p])
    requires p in s.disk.files ==> p in t.disk.files && t.disk.files[p].bytes == s.disk.files[p].bytes
                                   && (t.disk.files[p].tempLinked ==> s.disk.files[p].tempLinked)
    ensures Inv(t) && Preserves(s, t)
  {
    assert PublisherOk(s, p, s.publishers[p]);
    OthersUndisturbed(s, t, p);
  }

  lemma {:induction false} ReachableInv(trace: seq<Action>)
    ensures Inv(Execute(trace))
  {
    if trace != [] {
      ReachableInv(trace[..|trace| - 1]);
      NextKeepsInv(Execute(trace[..|trace| - 1]), trace[|trace| - 1]);
    }
  }

  // ----- The guarantees

  /** Once the file is visible it is one publisher's complete payload. */
  lemma {:induction false} VisibleIsComplete(trace: seq<Action>)
    ensures var s := Execute(trace);
            s.disk.target.Some? ==>
              var owner := s.disk.target.value;
              && owner in s.publishers && owner in s.disk.files
              && s.disk.files[owner].bytes == s.publishers[owner].payload
  {
    ReachableInv(trace);
    var s := Execute(trace);
    if s.disk.target.Some? {
      assert PublisherOk(s, s.disk.target.value, s.publishers[s.disk.target.value]);
    }
  }

  lemma PreservesOnwards(s: State, t: State, u: State)
    requires Preserves(s, t) && Preserves(t, u)
    ensures Preserves(s, u)
  {
  }

  lemma PreservesOneMore(s: State, t: State, a: Action)
    requires Preserves(s, t) && Inv(t)
    ensures Preserves(s, Next(t, a))
  {
    NextKeepsInv(t, a);
    PreservesOnwards(s, t, Next(t, a));
  }

  lemma {:induction false} LaterPreserves(s: State, trace: seq<Action>, more: seq<Action>)
    requires Preserves(s, Execute(trace))
    ensures Preserves(s, Execute(trace + more))
    decreases |more|
  {
    if more == [] {
      assert trace + more == trace;
    } else {
      ReachableInv(trace);
      PreservesOneMore(s, Execute(trace), more[0]);
      var longer := ExecuteAppends(trace, more[0]);
      LaterPreserves(s, longer, more[1..]);
      assert longer + more[1..] == trace + more;
    }
  }

  /** And it never changes again, whatever the publishers do, and neither does any result already returned. */
  lemma {:induction false} VisibleNeverChanges(trace: seq<Action>, more: seq<Action>)
    ensures Preserves(Execute(trace), Execute(trace + more))
  {
    LaterPreserves(Execute(trace), trace, more);
  }

  /** Every publisher that returns normally returned because the visible bytes are its payload; at most one wrote them. */
  lemma {:induction false} ReturnsAgree(trace: seq<Action>, p: nat, wrote: bool)
    requires At(Execute(trace), p, Returned(wrote))
    ensures var s := Execute(trace);
            && s.disk.target.Some? && s.disk.target.value in s.disk.files
            && s.disk.files[s.disk.target.value].bytes == s.publishers[p].payload
            && (wrote ==> s.disk.target == Some(p))
            && (forall q :: At(s, q, Returned(true)) && wrote ==> q == p)
  {
    ReachableInv(trace);
    var s := Execute(trace);
    assert PublisherOk(s, p, s.publishers[p]);
    forall q | At(s, q, Returned(true)) && wrote
      ensures q == p
    {
      assert PublisherOk(s, q, s.publishers[q]);
    }
  }

  /**
   A crash between link and unlink leaves the visible file with two names. Then
   nobody has returned, and nobody ever will: later publishers reject the file
   rather than trust or replace it.
   */
  lemma {:induction false} CrashedWinnerBlocksForever(trace: seq<Action>, more: seq<Action>, owner: nat)
    requires var s := Execute(trace);
             s.disk.target == Some(owner) && At(s, owner, Crashed) && owner in s.disk.files && s.disk.files[owner].tempLinked
    ensures var t := Execute(trace + more);
            && t.disk.target == Some(owner) && At(t, owner, Crashed)
            && owner in t.disk.files && t.disk.files[owner].tempLinked
            && (forall p, wrote :: !At(t, p, Returned(wrote)))
  {
    if more == [] {
      assert trace + more == trace;
    } else {
      var m := |more| - 1;
      CrashedWinnerBlocksForever(trace, more[..m], owner);
      assert (trace + more)[..|trace + more| - 1] == trace + more[..m];
      ReachableInv(trace + more[..m]);
      NextKeepsInv(Execute(trace + more[..m]), more[m]);
      CrashedFileStays(Execute(trace + more[..m]), more[m], owner);
    }
    ReachableInv(trace + more);
    NobodyReturnsYet(Execute(trace + more));
  }

  lemma ExecuteAppends(trace: seq<Action>, a: Action) returns (longer: seq<Action>)
    ensures longer == trace + [a] && Execute(longer) == Next(Execute(trace), a)
  {
    longer := trace + [a];
    assert longer[..|trace|] == trace;
  }

  /** One publisher alone, with its file. */
  function Alone(payload: Bytes, target: Option<nat>, bytes: Bytes, pc: Pc): State {
    State(Disk(target, map[0 := File(bytes, true)]), map[0 := Publisher(payload, pc)])
  }

  lemma CrashedFileStays(s: State, a: Action, owner: nat)
    requires At(s, owner, Crashed) && owner in s.disk.files
    ensures owner in Next(s, a).disk.files && Next(s, a).disk.files[owner] == s.disk.files[owner]
  {
  }

  /** Before the visible file has lost its temporary name, no publisher has returned. */
  lemma NobodyReturnsYet(s: State)
    requires Inv(s) && !Settled(s)
    ensures forall p, wrote :: !At(s, p, Returned(wrote))
  {
    forall p, wrote
      ensures !At(s, p, Returned(wrote))
    {
      if p in s.publishers {
        assert PublisherOk(s, p, s.publishers[p]);
      }
    }
  }

  // ----- What an undisturbed call answers

  /** The state after some more steps. */
  function Steps(s: State, actions: seq<Action>): State
    decreases |actions|
  {
    if actions == [] then s else Steps(Next(s, actions[0]), actions[1..])
  }

  lemma {:induction false} StepFirst(s: State, a: Action, rest: seq<Action>)
    ensures Steps(s, [a] + rest) == Steps(Next(s, a), rest)
  {
    assert ([a] + rest)[1..] == rest;
  }

  lemma {:induction false} ThreeSteps(s: State, a: Action, b: Action, c: Action)
    ensures Steps(s, [a, b, c]) == Next(Next(Next(s, a), b), c)
  {
    StepFirst(s, a, [b, c]);
    StepFirst(Next(s, a), b, [c]);
    StepFirst(Next(Next(s, a), b), c, []);
    assert [a] + [b, c] == [a, b, c] && [b] + [c] == [b, c] && [c] + [] == [c];
  }

  lemma {:induction false} FourSteps(s: State, a: Action, b: Action, c: Action, d: Action)
    ensures Steps(s, [a, b, c, d]) == Next(Next(Next(Next(s, a), b), c), d)
  {
    StepFirst(s, a, [b, c, d]);
    ThreeSteps(Next(s, a), b, c, d);
    assert [a] + [b, c, d] == [a, b, c, d];
  }

  lemma {:induction false} FiveSteps(s: State, a: Action, b: Action, c: Action, d: Action, e: Action)
    ensures Steps(s, [a, b, c, d, e]) == Next(Next(Next(Next(Next(s, a), b), c), d), e)
  {
    StepFirst(s, a, [b, c, d, e]);
    FourSteps(Next(s, a), b, c, d, e);
    assert [a] + [b, c, d, e] == [a, b, c, d, e];
  }

  lemma {:induction false} StepsContinue(trace: seq<Action>, actions: seq<Action>)
    ensures Execute(trace + actions) == Steps(Execute(trace), actions)
    decreases |actions|
  {
    if actions == [] {
      assert trace + actions == trace;
    } else {
      var longer := ExecuteAppends(trace, actions[0]);
      StepsContinue(longer, actions[1..]);
      assert longer + actions[1..] == trace + actions;
    }
  }

  /** The visible file is complete, has only its public name, and has an acceptable size. */
  predicate AcceptableTarget(d: Disk) {
    && d.target.Some? && d.target.value in d.files && !d.files[d.target.value].tempLinked
    && 1 <= |d.files[d.target.value].bytes| <= 8192
  }

  /** `_existing_matches` at the start, in two steps, for a publisher that has just come. */
  lemma {:induction false} ArrivingAnswers(s: State, p: nat, payload: Bytes)
    requires p !in s.publishers && s.disk.target.Some? && s.disk.target.value != p
    ensures var t := Steps(s, [Open(p, payload), Examine(p), Compare(p)]);
            && t.disk == s.disk && p in t.publishers && t.publishers[p].payload == payload
            && t.publishers[p].pc == Leaving(if AcceptableTarget(s.disk) && s.disk.files[s.disk.target.value].bytes == payload
                                             then Some(false) else None)
  {
    var s1 := Next(s, Open(p, payload));
    assert s1.disk == s.disk && At(s1, p, Opened);
    var s2 := Next(s1, Examine(p));
    assert s2.disk == s.disk;
    var s3 := Next(s2, Compare(p));
    assert s3.disk == s.disk;
    ThreeSteps(s, Open(p, payload), Examine(p), Compare(p));
  }

  /** A publisher that leaves with nothing of its own on the disk says what it found. */
  lemma LeavingAnswers(s: State, p: nat, result: Option<bool>)
    requires At(s, p, Leaving(result)) && p !in s.disk.files
    ensures Next(s, Leave(p, true)).disk == s.disk
    ensures At(Next(s, Leave(p, true)), p, if result == None then Raised else Returned(result.value))
  {
  }

  /**
   A publisher that meets a visible file, undisturbed: it returns False exactly
   when the file is settled, of an acceptable size, and equal to its payload; it
   raises otherwise; and it changes nothing.
   */
  lemma {:induction false} SecondPublisherAnswers(trace: seq<Action>, p: nat, payload: Bytes)
    requires p !in Execute(trace).publishers && Execute(trace).disk.target.Some?
    ensures var s := Execute(trace);
            var t := Execute(trace + [Open(p, payload), Examine(p), Compare(p), Leave(p, true)]);
            && t.disk == s.disk
            && At(t, p, if AcceptableTarget(s.disk) && s.disk.files[s.disk.target.value].bytes == payload then Returned(false)
                        else Raised)
  {
    ReachableInv(trace);
    var s := Execute(trace);
    var first := [Open(p, payload), Examine(p), Compare(p)];
    ArrivingAnswers(s, p, payload);
    StepsContinue(trace, first);
    var longer := ExecuteAppends(trace + first, Leave(p, true));
    assert longer == trace + [Open(p, payload), Examine(p), Compare(p), Leave(p, true)];
    var met := Execute(trace + first);
    LeavingAnswers(met, p, met.publishers[p].pc.result);
  }

  /** One publisher's file and place, all else as it was. */
  function With(s: State, p: nat, target: Option<nat>, file: File, q: Publisher): State {
    State(Disk(target, s.disk.files[p := file]), s.publishers[p := q])
  }

  /** A publisher that finds nothing creates its file. */
  lemma FileIsCreated(s: State, p: nat, payload: Bytes)
    requires p !in s.publishers && p !in s.disk.files && s.disk.target == None
    ensures Next(Next(Next(s, Open(p, payload)), Examine(p)), CreateTemp(p))
            == With(s, p, None, File([], true), Publisher(payload, Writing))
  {
    var s1 := Next(s, Open(p, payload));
    assert s1 == s.(publishers := s.publishers[p := Publisher(payload, Opened)]);
    assert Next(s1, Examine(p)) == s.(publishers := s.publishers[p := Publisher(payload, Absent)]);
  }

  lemma {:induction false} FileIsWritten(s: State, p: nat, payload: Bytes)
    requires payload != []
    ensures Next(Next(With(s, p, None, File([], true), Publisher(payload, Writing)), WriteSome(p, |payload|)), SyncTemp(p))
            == With(s, p, None, File(payload, true), Publisher(payload, Synced))
  {
    assert [] + payload[0..|payload|] == payload;
    assert Next(With(s, p, None, File([], true), Publisher(payload, Writing)), WriteSome(p, |payload|))
           == With(s, p, None, File(payload, true), Publisher(payload, Writing));
  }

  /** And has written it. */
  lemma {:induction false} FileIsSynced(s: State, p: nat, payload: Bytes)
    requires p !in s.publishers && p !in s.disk.files && s.disk.target == None && payload != []
    ensures Steps(s, [Open(p, payload), Examine(p), CreateTemp(p), WriteSome(p, |payload|), SyncTemp(p)])
            == With(s, p, None, File(payload, true), Publisher(payload, Synced))
  {
    FiveSteps(s, Open(p, payload), Examine(p), CreateTemp(p), WriteSome(p, |payload|), SyncTemp(p));
    FileIsCreated(s, p, payload);
    FileIsWritten(s, p, payload);
  }

  /** A synced file that is linked first becomes the visible one. */
  lemma LinkAndUnlink(s: State, p: nat, payload: Bytes)
    requires At(s, p, Synced) && s.disk.target == None && p in s.disk.files
    requires s.publishers[p].payload == payload && s.disk.files[p] == File(payload, true)
    ensures Next(Next(s, LinkTarget(p)), UnlinkTemp(p))
            == With(s, p, Some(p), File(payload, false), Publisher(payload, Unlinked))
  {
    assert Next(s, LinkTarget(p)) == With(s, p, Some(p), File(payload, true), Publisher(payload, Linked));
  }

  /** The publisher of the visible file compares it once more, and returns True. */
  lemma ConfirmAndLeave(s: State, p: nat, payload: Bytes)
    requires At(s, p, Unlinked) && s.disk.target == Some(p) && p in s.disk.files && 1 <= |payload| <= 8192
    requires s.publishers[p].payload == payload && s.disk.files[p] == File(payload, false)
    ensures var t := Next(Next(Next(s, Examine(p)), Compare(p)), Leave(p, true));
            At(t, p, Returned(true)) && t.disk == s.disk
  {
    assert Next(s, Examine(p)) == Put(s, p, Comparing(AfterPublishing));
    assert Next(Next(s, Examine(p)), Compare(p)) == Put(s, p, Leaving(Some(true)));
  }

  lemma {:induction false} WinnerAnswers(s: State, p: nat, payload: Bytes)
    requires At(s, p, Synced) && s.disk.target == None && p in s.disk.files && 1 <= |payload| <= 8192
    requires s.publishers[p].payload == payload && s.disk.files[p] == File(payload, true)
    ensures var t := Steps(s, [LinkTarget(p), UnlinkTemp(p), Examine(p), Compare(p), Leave(p, true)]);
            && At(t, p, Returned(true)) && t.disk == Disk(Some(p), s.disk.files[p := File(payload, false)])
  {
    FiveSteps(s, LinkTarget(p), UnlinkTemp(p), Examine(p), Compare(p), Leave(p, true));
    LinkAndUnlink(s, p, payload);
    ConfirmAndLeave(With(s, p, Some(p), File(payload, false), Publisher(payload, Unlinked)), p, payload);
  }

  /** The first publisher, undisturbed: its payload becomes the visible file, under that name alone, and it returns True. */
  lemma {:induction false} FirstPublisherAnswers(trace: seq<Action>, p: nat, payload: Bytes)
    requires p !in Execute(trace).publishers && Execute(trace).disk.target == None && 1 <= |payload| <= 8192
    ensures var t := Execute(trace + [Open(p, payload), Examine(p), CreateTemp(p), WriteSome(p, |payload|), SyncTemp(p)]
                             + [LinkTarget(p), UnlinkTemp(p), Examine(p), Compare(p), Leave(p, true)]);
            At(t, p, Returned(true)) && t.disk.target == Some(p) && p in t.disk.files && t.disk.files[p] == File(payload, false)
  {
    ReachableInv(trace);
    var first := [Open(p, payload), Examine(p), CreateTemp(p), WriteSome(p, |payload|), SyncTemp(p)];
    FileIsSynced(Execute(trace), p, payload);
    StepsContinue(trace, first);
    WinnerAnswers(Execute(trace + first), p, payload);
    StepsContinue(trace + first, [LinkTarget(p), UnlinkTemp(p), Examine(p), Compare(p), Leave(p, true)]);
  }

  lemma {:induction false} AloneIsSynced(payload: Bytes) returns (trace: seq<Action>)
    requires payload != []
    ensures Execute(trace) == Alone(payload, None, payload, Synced)
  {
    var first := [Open(0, payload), Examine(0), CreateTemp(0), WriteSome(0, |payload|), SyncTemp(0)];
    FileIsSynced(INITIAL, 0, payload);
    StepsContinue([], first);
    trace := [] + first;
  }

  lemma AloneLinksAndCrashes(payload: Bytes)
    ensures Next(Next(Alone(payload, None, payload, Synced), LinkTarget(0)), Crash(0))
            == Alone(payload, Some(0), payload, Crashed)
  {
    assert Next(Alone(payload, None, payload, Synced), LinkTarget(0)) == Alone(payload, Some(0), payload, Linked);
  }

  /** An instance for every payload: written, linked, and crashed before the temporary name is gone. */
  lemma AWinnerCanCrash(payload: Bytes) returns (trace: seq<Action>)
    requires payload != []
    ensures Execute(trace) == Alone(payload, Some(0), payload, Crashed)
  {
    trace := AloneIsSynced(payload);
    AloneLinksAndCrashes(payload);
    trace := ExecuteAppends(trace, LinkTarget(0));
    trace := ExecuteAppends(trace, Crash(0));
  }

  /**
   A publisher that loses the race: it takes its own file away and returns False
   exactly when the winner's file is settled and equal, and raises otherwise.
   */
  lemma {:induction false} LoserAnswers(s: State, p: nat)
    requires At(s, p, Synced) && s.disk.target.Some? && s.disk.target.value != p && p in s.disk.files
    requires s.disk.files[p].tempLinked
    ensures var t := Steps(s, [LinkTarget(p), Examine(p), Compare(p), Leave(p, true)]);
            && t.disk == s.disk.(files := s.disk.files[p := s.disk.files[p].(tempLinked := false)])
            && At(t, p, if AcceptableTarget(s.disk) && s.disk.files[s.disk.target.value].bytes == s.publishers[p].payload
                        then Returned(false) else Raised)
  {
    FourSteps(s, LinkTarget(p), Examine(p), Compare(p), Leave(p, true));
    var s1 := Next(s, LinkTarget(p));
    assert s1 == Put(s, p, Lost);
    var s2 := Next(s1, Examine(p));
    assert s2.disk == s.disk && p in s2.publishers && s2.publishers[p].payload == s.publishers[p].payload;
    var s3 := Next(s2, Compare(p));
    assert s3.disk == s.disk;
    assert At(s3, p, Leaving(if AcceptableTarget(s.disk)
                                && s.disk.files[s.disk.target.value].bytes == s.publishers[p].payload
                             then Some(false) else None));
  }

  /** A fault while a publisher runs: an exception, or a write that makes no progress. */
  predicate IsFault(s: State, a: Action, p: nat) {
    || (a == IoError(p) && p in s.publishers && Running(s.publishers[p].pc))
    || (a.WriteSome? && a.p == p && a.count <= 0 && At(s, p, Writing) && p in s.disk.files
        && |s.disk.files[p].bytes| < |s.publishers[p].payload|)
  }

  /**
   A fault is never reported as success: the publisher raises, takes its own
   temporary name away if it can, and leaves everything else as it was.
   */
  lemma {:induction false} FaultsAreRaised(s: State, a: Action, p: nat, cleaned: bool)
    requires IsFault(s, a, p)
    ensures var t := Steps(s, [a, Leave(p, cleaned)]);
            && At(t, p, Raised) && t.disk.target == s.disk.target && t.disk.files.Keys == s.disk.files.Keys
            && (forall q | q in s.disk.files && q != p :: t.disk.files[q] == s.disk.files[q])
            && (p in s.disk.files ==>
                  t.disk.files[p] == s.disk.files[p].(tempLinked := s.disk.files[p].tempLinked && !cleaned))
  {
    StepFirst(s, a, [Leave(p, cleaned)]);
    StepFirst(Next(s, a), Leave(p, cleaned), []);
    assert [a] + [Leave(p, cleaned)] == [a, Leave(p, cleaned)] && [Leave(p, cleaned)] + [] == [Leave(p, cleaned)];
  }

  /** Nor is a result returned while the publisher's temporary name stays behind. */
  lemma {:induction false} LeftoverIsRaised(trace: seq<Action>, p: nat, wrote: bool)
    requires At(Execute(trace), p, Leaving(Some(wrote)))
    ensures var s := Execute(trace);
            At(Execute(trace + [Leave(p, false)]), p,
               if p in s.disk.files && s.disk.files[p].tempLinked then Raised else Returned(wrote))
  {
    var _ := ExecuteAppends(trace, Leave(p, false));
  }

  // ----- The partial-write loop

  class TempFile {
    var bytes: Bytes

    constructor ()
      ensures bytes == []
    {
      bytes := [];
    }
  }

  /**
   `kernel` answers each write with how much it took, at most what was offered.
   Success means that exactly the payload was written; failure, that some write
   made no progress after a prefix.
   */
  method WriteAll(file: TempFile, payload: Bytes, kernel: Bytes -> int) returns (ok: bool)
    requires file.bytes == [] && forall rest: Bytes :: kernel(rest) <= |rest|
    modifies file
    ensures file.bytes <= payload
    ensures ok <==> file.bytes == payload
    ensures !ok ==> kernel(payload[|file.bytes|..]) <= 0
  {
    var remaining := payload;
    while remaining != []
      invariant file.bytes + remaining == payload
      decreases |remaining|
    {
      var count := kernel(remaining);
      if count <= 0 {
        assert remaining == payload[|file.bytes|..];
        return false;
      }
      file.bytes := file.bytes + remaining[..count];
      remaining := remaining[count..];
    }
    return true;
  }

  // ----- The record and the ledger

  /** The content of the published record. */
  datatype Record = Record(postingUrl: string, requisitionId: string, executionId: string, evidenceRef: string)

  /** The ledger check of `write_confirmed_outcome`. */
  predicate Supported(hash: string -> L.Digest, row: Option<L.Row>, submitKey: string, record: Record) {
    && IsOpaque(submitKey, 1024) && IsOpaque(record.executionId, 1024) && IsOpaque(record.requisitionId, 1024)
    && L.IsEvidenceRef(record.evidenceRef)
    && row.Some? && row.value.status == L.Confirmed
    && row.value.ids.submitKey == hash(submitKey)
    && row.value.ids.executionId == hash(record.executionId)
    && row.value.ids.requisitionId == hash(record.requisitionId)
    && row.value.confirmation.Some?
    && L.IsEvidenceRef(row.value.confirmation.value.evidence.ref)
    && row.value.confirmation.value.evidence.ref[16..] == record.evidenceRef[16..]
  }

  /**
   After a run has returned a confirmed employer, its own outcome record is
   supported by the ledger at every later time; and with an injective hash any
   supported record carries that run's execution, requisition and evidence.
   */
  lemma {:induction false} ConfirmedRunCanPublish(hash: string -> L.Digest, trace: seq<P.Action>, more: seq<P.Action>,
                                                  p: nat, ref: string, submitKey: string, record: Record)
    requires P.At(P.Execute(hash, trace), p, P.Finished(P.EmployerConfirmed(ref)))
    ensures var ids := P.Execute(hash, trace).runs[p].job.ids; var row := P.Execute(hash, trace + more).row;
            && Supported(hash, row, ids.submitKey, Record(record.postingUrl, ids.requisitionId, ids.executionId, ref))
            && ((forall x, y :: hash(x) == hash(y) ==> x == y) && Supported(hash, row, submitKey, record) ==>
                  && submitKey == ids.submitKey && record.executionId == ids.executionId
                  && record.requisitionId == ids.requisitionId && record.evidenceRef == ref)
  {
    P.ConfirmedRunIsBacked(hash, trace, more, p, ref);
    P.ReachableReferences(hash, trace + more);
    P.ReachableInv(hash, trace + more);
    var row := P.Execute(hash, trace + more).row;
    assert L.IsEvidenceRef(ref);
    if Supported(hash, row, submitKey, record) {
      assert ref == "evidence:sha256:" + ref[16..];
      assert record.evidenceRef == "evidence:sha256:" + record.evidenceRef[16..];
    }
  }
}
