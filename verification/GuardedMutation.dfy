/**
 The pure planner of guarded outcome mutations: from one Gmail signal and one
 observed opportunity to a frozen plan carrying the fingerprint it was made on.
 */
module GuardedMutation {
  import opened Wrappers
  import opened Identity

  datatype OutcomeType = ApplicationReceived | Rejection | Screening | Interview | Offer

  datatype Confidence = High | Medium | Low

  datatype Disposition = Eligible | KillSwitched | DuplicateSuppressed | AuditOnly | PreconditionFailed | SameStateNoop

  datatype OpportunityState = OpportunityState(company: string, role: string, country: string, status: string,
                                               appliedDate: string, lastUpdate: string, verification: string,
                                               urlStatus: string)

  datatype Signal = Signal(messageId: string, event: OutcomeType, emailDate: string, confidence: Confidence,
                           exactMatch: bool, rejectionReason: string)

  datatype Field = StatusField | AppliedDate | NextAction | LastUpdate | RejectionReason

  /** The injective image of the five stripped, concurrency-critical fields. */
  datatype Fingerprint = Fingerprint(status: string, appliedDate: string, lastUpdate: string, verification: string,
                                     urlStatus: string)

  datatype Plan = Plan(disposition: Disposition, shouldMutate: bool, outcomeKey: string, pipelineKey: Option<string>,
                       opportunityKey: Option<string>, fromState: Option<string>, toState: Option<string>,
                       rule: Option<string>, expected: Option<Fingerprint>, target: map<Field, string>)

  datatype MutationError = AuthorityRefused | ValueMissing | PatchRefused

  type Transition = (string, string, string)

  const INITIAL_ALLOWED: set<Transition> := {
    ("To Apply", "Applied", "ST-01"), ("Applied", "Rejected", "ST-07"), ("Recruiter Contacted", "Rejected", "ST-07"),
    ("Screening", "Rejected", "ST-07"), ("Assessment", "Rejected", "ST-07"), ("Interview 1", "Rejected", "ST-07"),
    ("Interview 2", "Rejected", "ST-07"), ("Final Interview", "Rejected", "ST-07")
  }

  const ACTIVE_SUBMITTED: set<string> := {
    "Applied", "Recruiter Contacted", "Screening", "Assessment", "Interview 1", "Interview 2", "Final Interview"
  }

  datatype Authority = Authority(mutationFlag: bool, allowed: set<Transition>, applicationsWrite: bool,
                                 pipelineAppend: bool, outcomeAppend: bool, userFactWrites: bool,
                                 externalFormWrites: bool, terminalReopen: bool, finalSubmit: bool)
  {
    predicate Valid() {
      && !userFactWrites && !externalFormWrites && !terminalReopen && !finalSubmit
      && applicationsWrite && pipelineAppend && outcomeAppend
      && allowed <= INITIAL_ALLOWED
    }
  }

  function OpportunityKey(s: OpportunityState): string {
    KeyPart(s.company) + ":" + KeyPart(s.role) + if s.country == "" then "" else ":" + KeyPart(s.country)
  }

  function OutcomeKey(messageId: string): Option<string> {
    if IsBlank(messageId) then None else Some("gmail:" + Strip(messageId))
  }

  function PipelineKey(opportunity: string, from: string, to: string, date: string, evidence: string): Option<string> {
    if !IsBlank(opportunity) && !IsBlank(from) && !IsBlank(to) && !IsBlank(date) && !IsBlank(evidence) then
      Some("pipe:" + opportunity + ":" + KeyPart(from) + ":" + KeyPart(to) + ":" + date + ":" + KeyPart(evidence))
    else None
  }

  function FingerprintOf(s: OpportunityState): Fingerprint {
    Fingerprint(Strip(s.status), Strip(s.appliedDate), Strip(s.lastUpdate), Strip(s.verification), Strip(s.urlStatus))
  }

  function Bare(key: string, d: Disposition): Plan {
    Plan(d, false, key, None, None, None, None, None, None, map[])
  }

  function NoMutation(key: string, d: Disposition, s: OpportunityState, to: string, rule: string,
                      pipeline: Option<string>): Plan
  {
    Plan(d, false, key, pipeline, Some(OpportunityKey(s)), Some(s.status), Some(to), Some(rule), Some(FingerprintOf(s)),
         map[])
  }

  function Mutation(key: string, s: OpportunityState, to: string, rule: string, pipeline: string, a: Authority,
                    target: map<Field, string>): Plan
  {
    Plan(if a.mutationFlag then Eligible else KillSwitched, a.mutationFlag, key, Some(pipeline),
         Some(OpportunityKey(s)), Some(s.status), Some(to), Some(rule), Some(FingerprintOf(s)), target)
  }

  /** The part common to both rules, once the transition itself has been judged. */
  function PlanTransition(signal: Signal, key: string, s: OpportunityState, to: string, rule: string, logged: bool,
                          a: Authority, target: map<Field, string>): Result<Plan, MutationError>
  {
    if (s.status, to, rule) !in a.allowed then Ok(NoMutation(key, PreconditionFailed, s, to, rule, None))
    else
      match PipelineKey(OpportunityKey(s), s.status, to, signal.emailDate, signal.messageId)
      case None => Err(ValueMissing)
      case Some(pipeline) =>
        if logged then Ok(NoMutation(key, DuplicateSuppressed, s, to, rule, Some(pipeline)))
        else Ok(Mutation(key, s, to, rule, pipeline, a, target))
  }

  function ReceiptTarget(signal: Signal): map<Field, string> {
    map[StatusField := "Applied", AppliedDate := signal.emailDate,
        NextAction := "Monitor application / follow up if appropriate", LastUpdate := signal.emailDate]
  }

  function RejectionTarget(signal: Signal): map<Field, string> {
    map[StatusField := "Rejected", LastUpdate := signal.emailDate,
        RejectionReason := if signal.rejectionReason != "" then signal.rejectionReason else "Employer rejection received."]
  }

  function PlanReceipt(signal: Signal, key: string, s: OpportunityState, logged: bool, a: Authority)
    : Result<Plan, MutationError>
  {
    if signal.emailDate == "" then
      Ok(Bare(key, PreconditionFailed).(opportunityKey := Some(OpportunityKey(s)), expected := Some(FingerprintOf(s))))
    else if s.status == "Applied" then Ok(NoMutation(key, SameStateNoop, s, "Applied", "ST-01", None))
    else PlanTransition(signal, key, s, "Applied", "ST-01", logged, a, ReceiptTarget(signal))
  }

  function PlanRejection(signal: Signal, key: string, s: OpportunityState, logged: bool, a: Authority)
    : Result<Plan, MutationError>
  {
    if s.status == "Rejected" then Ok(NoMutation(key, SameStateNoop, s, "Rejected", "ST-07", None))
    else if s.status !in ACTIVE_SUBMITTED then Ok(NoMutation(key, PreconditionFailed, s, "Rejected", "ST-07", None))
    else PlanTransition(signal, key, s, "Rejected", "ST-07", logged, a, RejectionTarget(signal))
  }

  function PlanOutcome(signal: Signal, state: Option<OpportunityState>, outcomeLogged: bool, pipelineLogged: bool,
                       a: Authority): Result<Plan, MutationError>
  {
    if !a.Valid() then Err(AuthorityRefused)
    else
      match OutcomeKey(signal.messageId)
      case None => Err(ValueMissing)
      case Some(key) =>
        if outcomeLogged then Ok(Bare(key, DuplicateSuppressed))
        else if signal.confidence != High || !signal.exactMatch || state.None? then Ok(Bare(key, AuditOnly))
        else
          match signal.event
          case ApplicationReceived => PlanReceipt(signal, key, state.value, pipelineLogged, a)
          case Rejection => PlanRejection(signal, key, state.value, pipelineLogged, a)
          case _ => Ok(Bare(key, PreconditionFailed))
  }

  // ----- The workspace patch

  function AllowedFields(rule: Option<string>): set<Field> {
    if rule == Some("ST-01") then {StatusField, AppliedDate, NextAction, LastUpdate}
    else if rule == Some("ST-07") then {StatusField, LastUpdate, RejectionReason}
    else {}
  }

  function RequiredFields(rule: Option<string>): set<Field> {
    if rule == Some("ST-01") then {StatusField, AppliedDate, LastUpdate} else {StatusField, LastUpdate, RejectionReason}
  }

  predicate PatchValid(p: Plan) {
    AllowedFields(p.rule) != {} && RequiredFields(p.rule) <= p.target.Keys <= AllowedFields(p.rule)
  }

  datatype CellPatch = CellPatch(column: char, row: nat, value: string)

  function ColumnOf(f: Field): char {
    match f case StatusField => 'J' case AppliedDate => 'K' case NextAction => 'P' case LastUpdate => 'X'
            case RejectionReason => 'Y'
  }

  const FIELD_ORDER := [StatusField, AppliedDate, NextAction, LastUpdate, RejectionReason]

  function PatchesFrom(fields: seq<Field>, row: nat, target: map<Field, string>): seq<CellPatch> {
    if fields == [] then []
    else (if fields[0] in target then [CellPatch(ColumnOf(fields[0]), row, target[fields[0]])] else [])
         + PatchesFrom(fields[1..], row, target)
  }

  /** None for the ValueError of a header row or the refusal of an unauthorised patch. */
  function BuildCellPatches(row: int, p: Plan): Option<seq<CellPatch>> {
    if row < 2 || !PatchValid(p) then None else Some(PatchesFrom(FIELD_ORDER, row, p.target))
  }

  // ----- What an eligible plan is

  /** To Apply may still be applied to and then rejected; an active application may still be rejected. */
  function Rank(status: string): nat {
    var s := Strip(status);
    if s == "To Apply" then 2 else if s in ACTIVE_SUBMITTED then 1 else 0
  }

  predicate CanMutate(p: Plan) {
    && p.disposition == Eligible && p.shouldMutate
    && p.opportunityKey.Some? && p.pipelineKey.Some? && p.expected.Some?
  }

  /** The properties of planner-made eligible plans that everything after relies on. */
  ghost predicate WellPlanned(p: Plan) {
    && CanMutate(p)
    && p.fromState.Some? && p.toState.Some? && p.rule.Some?
    && (p.fromState.value, p.toState.value, p.rule.value) in INITIAL_ALLOWED
    && p.expected.value.status == p.fromState.value
    && Rank(p.toState.value) < Rank(p.fromState.value)
    && PatchValid(p)
    && p.target[StatusField] == p.toState.value
    && p.toState.value != p.fromState.value && Strip(p.toState.value) == p.toState.value
  }

  lemma AllowedIsTrimmedAndDescending(t: Transition)
    requires t in INITIAL_ALLOWED
    ensures Strip(t.0) == t.0 != "" && Strip(t.1) == t.1 != "" && t.0 != t.1 && Rank(t.1) < Rank(t.0)
    ensures t.1 == "Rejected" || (t.0 == "To Apply" && t.1 == "Applied" && t.2 == "ST-01")
    ensures t.0 != "Rejected" && (t.2 == "ST-01" || t.2 == "ST-07")
  {
    TrimmedIsStripped(t.0);
    TrimmedIsStripped(t.1);
  }

  /** `PlanTransition` yields a mutation exactly when the transition is allowed, unlogged, unswitched and fully keyed. */
  lemma TransitionIsGuarded(signal: Signal, key: string, s: OpportunityState, to: string, rule: string, logged: bool,
                            a: Authority, target: map<Field, string>)
    requires a.Valid()
    requires RequiredFields(Some(rule)) <= target.Keys <= AllowedFields(Some(rule)) && target[StatusField] == to
    ensures var r := PlanTransition(signal, key, s, to, rule, logged, a, target);
            && (r.Ok? && CanMutate(r.value) <==>
                && (s.status, to, rule) in a.allowed && !logged && a.mutationFlag
                && PipelineKey(OpportunityKey(s), s.status, to, signal.emailDate, signal.messageId).Some?)
            && (r.Ok? && CanMutate(r.value) ==>
                && WellPlanned(r.value) && r.value.fromState == Some(s.status) && r.value.toState == Some(to)
                && r.value.outcomeKey == key
                && r.value.opportunityKey == Some(OpportunityKey(s)) && r.value.expected == Some(FingerprintOf(s)))
  {
    if (s.status, to, rule) in a.allowed {
      AllowedIsTrimmedAndDescending((s.status, to, rule));
    }
  }

  /** What `PlanReceipt` and `PlanRejection` have in common. */
  ghost predicate Guarded(r: Result<Plan, MutationError>, key: string, s: OpportunityState, to: string, a: Authority) {
    r.Ok? && CanMutate(r.value) ==>
      && WellPlanned(r.value) && a.mutationFlag && r.value.outcomeKey == key
      && r.value.fromState == Some(s.status) && r.value.toState == Some(to)
      && r.value.opportunityKey == Some(OpportunityKey(s)) && r.value.expected == Some(FingerprintOf(s))
  }

  lemma ReceiptIsGuarded(signal: Signal, key: string, s: OpportunityState, logged: bool, a: Authority)
    requires a.Valid()
    ensures Guarded(PlanReceipt(signal, key, s, logged, a), key, s, "Applied", a)
    ensures logged ==> var r := PlanReceipt(signal, key, s, logged, a); !(r.Ok? && CanMutate(r.value))
  {
    if signal.emailDate != "" && s.status != "Applied" {
      TransitionIsGuarded(signal, key, s, "Applied", "ST-01", logged, a, ReceiptTarget(signal));
    }
  }

  lemma RejectionIsGuarded(signal: Signal, key: string, s: OpportunityState, logged: bool, a: Authority)
    requires a.Valid()
    ensures Guarded(PlanRejection(signal, key, s, logged, a), key, s, "Rejected", a)
    ensures logged ==> var r := PlanRejection(signal, key, s, logged, a); !(r.Ok? && CanMutate(r.value))
  {
    if s.status != "Rejected" && s.status in ACTIVE_SUBMITTED {
      TransitionIsGuarded(signal, key, s, "Rejected", "ST-07", logged, a, RejectionTarget(signal));
    }
  }

  /** Every plan that may mutate comes from an allowlisted transition out of the very state it was made on. */
  lemma PlannerIsGuarded(signal: Signal, state: Option<OpportunityState>, outcomeLogged: bool, pipelineLogged: bool,
                         a: Authority)
    ensures var r := PlanOutcome(signal, state, outcomeLogged, pipelineLogged, a);
            r.Ok? && CanMutate(r.value) ==>
              && a.Valid() && !outcomeLogged && !pipelineLogged && OutcomeKey(signal.messageId).Some?
              && signal.confidence == High && signal.exactMatch && state.Some?
              && (signal.event == ApplicationReceived || signal.event == Rejection)
              && Guarded(r, OutcomeKey(signal.messageId).value, state.value,
                         if signal.event == Rejection then "Rejected" else "Applied", a)
  {
    if a.Valid() && OutcomeKey(signal.messageId).Some? && state.Some? {
      var key := OutcomeKey(signal.messageId).value;
      ReceiptIsGuarded(signal, key, state.value, pipelineLogged, a);
      RejectionIsGuarded(signal, key, state.value, pipelineLogged, a);
    }
  }

  lemma OpportunityKeyIsPresent(s: OpportunityState)
    ensures !IsBlank(OpportunityKey(s))
  {
    KeyPartNormalises(s.company);
    KeyPartNormalises(s.role);
    KeyPartNormalises(s.country);
    var key := OpportunityKey(s);
    if s.country == "" {
      assert key == KeyPart(s.company) + ":" + KeyPart(s.role);
      SlugEndsArePresent(KeyPart(s.company), ":", KeyPart(s.role));
    } else {
      assert key == KeyPart(s.company) + (":" + KeyPart(s.role) + ":") + KeyPart(s.country);
      SlugEndsArePresent(KeyPart(s.company), ":" + KeyPart(s.role) + ":", KeyPart(s.country));
    }
  }

  lemma TransitionIsKeyed(signal: Signal, s: OpportunityState, to: string, rule: string)
    requires (s.status, to, rule) in INITIAL_ALLOWED && !IsBlank(signal.messageId)
    ensures PipelineKey(OpportunityKey(s), s.status, to, signal.emailDate, signal.messageId).Some?
            <==> !IsBlank(signal.emailDate)
  {
    OpportunityKeyIsPresent(s);
    AllowedIsTrimmedAndDescending((s.status, to, rule));
    assert !IsBlank(s.status) && !IsBlank(to);
  }

  lemma ReceiptMutatesIff(signal: Signal, key: string, s: OpportunityState, logged: bool, a: Authority)
    requires a.Valid() && !IsBlank(signal.messageId)
    ensures var r := PlanReceipt(signal, key, s, logged, a);
            r.Ok? && CanMutate(r.value) <==>
              a.mutationFlag && !logged && !IsBlank(signal.emailDate) && (s.status, "Applied", "ST-01") in a.allowed
  {
    if (s.status, "Applied", "ST-01") in a.allowed {
      TransitionIsKeyed(signal, s, "Applied", "ST-01");
      AllowedIsTrimmedAndDescending((s.status, "Applied", "ST-01"));
    }
    TransitionIsGuarded(signal, key, s, "Applied", "ST-01", logged, a, ReceiptTarget(signal));
  }

  lemma RejectableAreActive(status: string)
    requires (status, "Rejected", "ST-07") in INITIAL_ALLOWED
    ensures status in ACTIVE_SUBMITTED
  {
  }

  lemma RejectionMutatesIff(signal: Signal, key: string, s: OpportunityState, logged: bool, a: Authority)
    requires a.Valid() && !IsBlank(signal.messageId)
    ensures var r := PlanRejection(signal, key, s, logged, a);
            r.Ok? && CanMutate(r.value) <==>
              a.mutationFlag && !logged && !IsBlank(signal.emailDate) && (s.status, "Rejected", "ST-07") in a.allowed
  {
    if (s.status, "Rejected", "ST-07") in a.allowed {
      TransitionIsKeyed(signal, s, "Rejected", "ST-07");
      AllowedIsTrimmedAndDescending((s.status, "Rejected", "ST-07"));
      RejectableAreActive(s.status);
    }
    if s.status != "Rejected" && s.status in ACTIVE_SUBMITTED {
      TransitionIsGuarded(signal, key, s, "Rejected", "ST-07", logged, a, RejectionTarget(signal));
    }
  }

  /** The condition on signal, state and authority under which the rules permit a mutation. */
  predicate Permitted(signal: Signal, s: OpportunityState, a: Authority) {
    && signal.confidence == High && signal.exactMatch
    && !IsBlank(signal.messageId) && !IsBlank(signal.emailDate)
    && match signal.event
       case ApplicationReceived => (s.status, "Applied", "ST-01") in a.allowed
       case Rejection => (s.status, "Rejected", "ST-07") in a.allowed
       case _ => false
  }

  /** Exactly when the planner hands out a mutation: nothing is withheld that the rules permit. */
  lemma PlannerMutatesIff(signal: Signal, s: OpportunityState, outcomeLogged: bool, pipelineLogged: bool, a: Authority)
    ensures var r := PlanOutcome(signal, Some(s), outcomeLogged, pipelineLogged, a);
            r.Ok? && CanMutate(r.value) <==>
              a.Valid() && a.mutationFlag && !outcomeLogged && !pipelineLogged && Permitted(signal, s, a)
  {
    if a.Valid() {
      match OutcomeKey(signal.messageId)
      case None =>
      case Some(key) =>
        if signal.event == ApplicationReceived {
          ReceiptMutatesIff(signal, key, s, pipelineLogged, a);
        } else if signal.event == Rejection {
          RejectionMutatesIff(signal, key, s, pipelineLogged, a);
        }
    }
  }

  function Suffix(part: Option<string>): string {
    match part case None => "" case Some(p) => ":" + p
  }

  lemma TailsAgree(a: string, x: Option<string>, b: string, y: Option<string>)
    requires ':' !in a && ':' !in b && a + Suffix(x) == b + Suffix(y)
    ensures a == b && x == y
  {
    var s := a + Suffix(x);
    assert forall i | 0 <= i < |a| :: s[i] == a[i] && a[i] in a;
    assert forall i | 0 <= i < |b| :: s[i] == b[i] && b[i] in b;
    assert x.Some? ==> s[|a|] == ':';
    assert y.Some? ==> s[|b|] == ':';
    assert |a| == |b|;
    assert a == s[..|a|] && b == s[..|b|];
    assert Suffix(x) == s[|a|..] == Suffix(y);
    if x.Some? && y.Some? {
      assert x.value == Suffix(x)[1..] && y.value == Suffix(y)[1..];
    }
  }

  lemma KeysAgree(a: string, r: string, x: Option<string>, b: string, q: string, y: Option<string>)
    requires ':' !in a && ':' !in b && ':' !in r && ':' !in q
    ensures a + ":" + r + Suffix(x) == b + ":" + q + Suffix(y) <==> a == b && r == q && x == y
  {
    assert a + ":" + r + Suffix(x) == a + ":" + (r + Suffix(x));
    assert b + ":" + q + Suffix(y) == b + ":" + (q + Suffix(y));
    if a + ":" + r + Suffix(x) == b + ":" + q + Suffix(y) {
      FirstPartDetermined(a, r + Suffix(x), b, q + Suffix(y));
      TailsAgree(r, x, q, y);
    }
  }

  function Country(s: OpportunityState): Option<string> {
    if s.country == "" then None else Some(KeyPart(s.country))
  }

  /** Opportunities share a key exactly when the normalised company, role and, if any, country agree. */
  lemma OpportunityKeyIsExact(s: OpportunityState, t: OpportunityState)
    ensures OpportunityKey(s) == OpportunityKey(t) <==>
            KeyPart(s.company) == KeyPart(t.company) && KeyPart(s.role) == KeyPart(t.role) && Country(s) == Country(t)
  {
    KeyPartNormalises(s.company);
    KeyPartNormalises(t.company);
    KeyPartNormalises(s.role);
    KeyPartNormalises(t.role);
    KeysAgree(KeyPart(s.company), KeyPart(s.role), Country(s), KeyPart(t.company), KeyPart(t.role), Country(t));
  }

  /** What follows company and role in a pipeline key, up to the evidence. */
  function Middle(country: Option<string>, from: string, to: string, date: string): string {
    var move := from + ":" + (to + ":" + date);
    match country case None => move case Some(c) => c + ":" + move
  }

  /** A pipeline key is given for visible parts, and is made of these. */
  lemma PipelineKeyIs(s: OpportunityState, from: string, to: string, date: string, evidence: string)
    ensures PipelineKey(OpportunityKey(s), from, to, date, evidence)
            == if Visible(from) && Visible(to) && Visible(date) && Visible(evidence) then
                 Some("pipe:" + (KeyPart(s.company) + ":" + (KeyPart(s.role) + ":"
                                 + Middle(Country(s), KeyPart(from), KeyPart(to), date))) + ":" + KeyPart(evidence))
               else None
  {
    OpportunityKeyIsPresent(s);
    BlankIff(from);
    BlankIff(to);
    BlankIff(date);
    BlankIff(evidence);
    KeyAssociates(KeyPart(s.company), KeyPart(s.role), Country(s), KeyPart(from), KeyPart(to), date);
  }

  lemma TailAssociates(k: string, from: string, to: string, date: string)
    ensures k + ":" + from + ":" + to + ":" + date == k + (":" + (from + ":" + (to + ":" + date)))
  {
  }

  lemma KeyAssociates(c: string, r: string, x: Option<string>, from: string, to: string, date: string)
    ensures "pipe:" + (c + ":" + r + Suffix(x)) + ":" + from + ":" + to + ":" + date
            == "pipe:" + (c + ":" + (r + ":" + Middle(x, from, to, date)))
  {
    TailAssociates("pipe:" + (c + ":" + r + Suffix(x)), from, to, date);
    SuffixAssociates(c + ":", r, x, ":" + (from + ":" + (to + ":" + date)));
    assert r + Suffix(x) + (":" + (from + ":" + (to + ":" + date))) == r + ":" + Middle(x, from, to, date);
  }

  lemma SuffixAssociates(c: string, r: string, x: Option<string>, tail: string)
    ensures "pipe:" + (c + r + Suffix(x)) + tail == "pipe:" + (c + (r + Suffix(x) + tail))
  {
  }

  /** Two middles without, or with, a country each: equal exactly in every part. */
  lemma SameShapeMeetsIff(x: Option<string>, f1: string, t1: string, d1: string,
                          y: Option<string>, f2: string, t2: string, d2: string)
    requires ':' !in f1 && ':' !in t1 && ':' !in f2 && ':' !in t2
    requires x.Some? == y.Some? && (x.Some? ==> ':' !in x.value && ':' !in y.value)
    ensures Middle(x, f1, t1, d1) == Middle(y, f2, t2, d2) <==> x == y && f1 == f2 && t1 == t2 && d1 == d2
  {
    if Middle(x, f1, t1, d1) == Middle(y, f2, t2, d2) {
      var m1, m2 := Middle(None, f1, t1, d1), Middle(None, f2, t2, d2);
      if x.Some? {
        FirstPartDetermined(x.value, m1, y.value, m2);
      }
      FirstPartDetermined(f1, t1 + ":" + d1, f2, t2 + ":" + d2);
      FirstPartDetermined(t1, d1, t2, d2);
    }
  }

  /** One with a country and one without: everything has moved by one place, and the date takes the rest. */
  lemma ShiftedMeetsIff(c: string, f1: string, t1: string, d1: string, f2: string, t2: string, d2: string)
    requires ':' !in c && ':' !in f1 && ':' !in t1 && ':' !in f2 && ':' !in t2
    ensures Middle(Some(c), f1, t1, d1) == Middle(None, f2, t2, d2) <==> c == f2 && f1 == t2 && d2 == t1 + ":" + d1
  {
    if Middle(Some(c), f1, t1, d1) == Middle(None, f2, t2, d2) {
      FirstPartDetermined(c, Middle(None, f1, t1, d1), f2, t2 + ":" + d2);
      FirstPartDetermined(f1, t1 + ":" + d1, t2, d2);
    }
  }

  /** When the parts of two pipeline keys agree: one by one, or, with a country on one side only, moved by a place. */
  predicate PartsAgree(x: Option<string>, f1: string, t1: string, d1: string,
                       y: Option<string>, f2: string, t2: string, d2: string)
  {
    match (x, y)
    case (Some(c), None) => c == f2 && f1 == t2 && d2 == t1 + ":" + d1
    case (None, Some(c)) => c == f1 && f2 == t1 && d1 == t2 + ":" + d2
    case _ => x == y && f1 == f2 && t1 == t2 && d1 == d2
  }

  lemma MiddlesMeetIff(x: Option<string>, f1: string, t1: string, d1: string,
                       y: Option<string>, f2: string, t2: string, d2: string)
    requires ':' !in f1 && ':' !in t1 && ':' !in f2 && ':' !in t2
    requires (x.Some? ==> ':' !in x.value) && (y.Some? ==> ':' !in y.value)
    ensures Middle(x, f1, t1, d1) == Middle(y, f2, t2, d2) <==> PartsAgree(x, f1, t1, d1, y, f2, t2, d2)
  {
    match (x, y)
    case (Some(c), None) => ShiftedMeetsIff(c, f1, t1, d1, f2, t2, d2);
    case (None, Some(c)) => ShiftedMeetsIff(c, f2, t2, d2, f1, t1, d1);
    case _ => SameShapeMeetsIff(x, f1, t1, d1, y, f2, t2, d2);
  }

  lemma KeyTextsMeetIff(c1: string, r1: string, m1: string, e1: string, c2: string, r2: string, m2: string, e2: string)
    requires ':' !in c1 && ':' !in r1 && ':' !in e1 && ':' !in c2 && ':' !in r2 && ':' !in e2
    ensures "pipe:" + (c1 + ":" + (r1 + ":" + m1)) + ":" + e1 == "pipe:" + (c2 + ":" + (r2 + ":" + m2)) + ":" + e2 <==>
            c1 == c2 && r1 == r2 && m1 == m2 && e1 == e2
  {
    var a, b := c1 + ":" + (r1 + ":" + m1), c2 + ":" + (r2 + ":" + m2);
    if "pipe:" + a + ":" + e1 == "pipe:" + b + ":" + e2 {
      LastPartDetermined("pipe:" + a, e1, "pipe:" + b, e2);
      assert a == ("pipe:" + a)[5..] && b == ("pipe:" + b)[5..];
      FirstPartDetermined(c1, r1 + ":" + m1, c2, r2 + ":" + m2);
      FirstPartDetermined(r1, m1, r2, m2);
    }
  }

  /**
   Exactly when two events share a pipeline key: all parts agree after
   normalisation, or, when only one of the opportunities has a country, that
   country reads like the other's first state, and so on down to a date that
   swallows the rest.
   */
  lemma PipelineKeysMeetIff(s: OpportunityState, f1: string, t1: string, d1: string, e1: string,
                            o: OpportunityState, f2: string, t2: string, d2: string, e2: string)
    requires Visible(f1) && Visible(t1) && Visible(d1) && Visible(e1)
    requires Visible(f2) && Visible(t2) && Visible(d2) && Visible(e2)
    ensures PipelineKey(OpportunityKey(s), f1, t1, d1, e1) == PipelineKey(OpportunityKey(o), f2, t2, d2, e2) <==>
            && KeyPart(s.company) == KeyPart(o.company) && KeyPart(s.role) == KeyPart(o.role) && KeyPart(e1) == KeyPart(e2)
            && PartsAgree(Country(s), KeyPart(f1), KeyPart(t1), d1, Country(o), KeyPart(f2), KeyPart(t2), d2)
  {
    PipelineKeyIs(s, f1, t1, d1, e1);
    PipelineKeyIs(o, f2, t2, d2, e2);
    NoColons(s, f1, t1, e1);
    NoColons(o, f2, t2, e2);
    KeyTextsMeetIff(KeyPart(s.company), KeyPart(s.role), Middle(Country(s), KeyPart(f1), KeyPart(t1), d1), KeyPart(e1),
                    KeyPart(o.company), KeyPart(o.role), Middle(Country(o), KeyPart(f2), KeyPart(t2), d2), KeyPart(e2));
    MiddlesMeetIff(Country(s), KeyPart(f1), KeyPart(t1), d1, Country(o), KeyPart(f2), KeyPart(t2), d2);
  }

  lemma NoColons(s: OpportunityState, from: string, to: string, evidence: string)
    ensures ':' !in KeyPart(s.company) && ':' !in KeyPart(s.role) && (s.country != "" ==> ':' !in KeyPart(s.country))
    ensures ':' !in KeyPart(from) && ':' !in KeyPart(to) && ':' !in KeyPart(evidence)
  {
    KeyPartNormalises(s.company);
    KeyPartNormalises(s.role);
    KeyPartNormalises(s.country);
    KeyPartNormalises(from);
    KeyPartNormalises(to);
    KeyPartNormalises(evidence);
  }

  /**
   The moved places do occur between allowed transitions: a rejection at an
   opportunity whose country reads "To Apply", and an application there without
   a country, dated with what remains.
   */
  lemma KeysCanMeet(s: OpportunityState, o: OpportunityState, date: string, evidence: string)
    requires s.country == "To Apply" && o == s.(country := "") && Visible(date) && Visible(evidence)
    ensures ("Applied", "Rejected", "ST-07") in INITIAL_ALLOWED && ("To Apply", "Applied", "ST-01") in INITIAL_ALLOWED
    ensures var other := KeyPart("Rejected") + ":" + date;
            PipelineKey(OpportunityKey(s), "Applied", "Rejected", date, evidence)
            == PipelineKey(OpportunityKey(o), "To Apply", "Applied", other, evidence)
  {
    var other := KeyPart("Rejected") + ":" + date;
    assert "Applied"[0] in "Applied" && "Rejected"[0] in "Rejected" && "To Apply"[0] in "To Apply";
    var c :| c in date && !IsWhite(c);
    assert c in other;
    PipelineKeysMeetIff(s, "Applied", "Rejected", date, evidence, o, "To Apply", "Applied", other, evidence);
  }

  // ----- The whole decision of the planner

  /** The transitions of the contract: an application to Applied, an active application to Rejected. */
  lemma AllowedIff(from: string, to: string, rule: string)
    ensures (from, to, rule) in INITIAL_ALLOWED <==>
            || (from == "To Apply" && to == "Applied" && rule == "ST-01")
            || (from in ACTIVE_SUBMITTED && to == "Rejected" && rule == "ST-07")
  {
  }

  /** Two opportunities look the same to compare-and-set exactly when the five stripped columns agree. */
  lemma FingerprintIsExact(s: OpportunityState, t: OpportunityState)
    ensures FingerprintOf(s) == FingerprintOf(t) <==>
            && Strip(s.status) == Strip(t.status) && Strip(s.appliedDate) == Strip(t.appliedDate)
            && Strip(s.lastUpdate) == Strip(t.lastUpdate) && Strip(s.verification) == Strip(t.verification)
            && Strip(s.urlStatus) == Strip(t.urlStatus)
  {
  }

  /** Where an event moves an opportunity, and by which rule. */
  function Destination(event: OutcomeType): Option<(string, string)> {
    match event
    case ApplicationReceived => Some(("Applied", "ST-01"))
    case Rejection => Some(("Rejected", "ST-07"))
    case _ => None
  }

  predicate MoveAllowed(signal: Signal, s: OpportunityState, a: Authority) {
    && Destination(signal.event).Some?
    && (s.status, Destination(signal.event).value.0, Destination(signal.event).value.1) in a.allowed
  }

  /** A High, exact match of a tracked opportunity by an event that moves opportunities. */
  predicate Considered(signal: Signal, state: Option<OpportunityState>, outcomeLogged: bool) {
    !outcomeLogged && signal.confidence == High && signal.exactMatch && state.Some? && Destination(signal.event).Some?
  }

  predicate Undated(signal: Signal) {
    signal.event == ApplicationReceived && signal.emailDate == ""
  }

  /** The plan for a considered signal. */
  ghost predicate Answers(r: Result<Plan, MutationError>, signal: Signal, s: OpportunityState, logged: bool, a: Authority)
    requires Destination(signal.event).Some?
  {
    var (to, rule) := Destination(signal.event).value;
    if MoveAllowed(signal, s, a) && IsBlank(signal.emailDate) && !Undated(signal) then r == Err(ValueMissing)
    else
      && r.Ok?
      && r.value.disposition == (if Undated(signal) then PreconditionFailed
                                 else if s.status == to then SameStateNoop
                                 else if !MoveAllowed(signal, s, a) then PreconditionFailed
                                 else if logged then DuplicateSuppressed
                                 else if a.mutationFlag then Eligible else KillSwitched)
      && r.value.opportunityKey == Some(OpportunityKey(s)) && r.value.expected == Some(FingerprintOf(s))
      && (if Undated(signal) then r.value.fromState == r.value.toState == r.value.rule == None
          else r.value.fromState == Some(s.status) && r.value.toState == Some(to) && r.value.rule == Some(rule))
      && r.value.pipelineKey == (if MoveAllowed(signal, s, a) && !Undated(signal) then
                                   PipelineKey(OpportunityKey(s), s.status, to, signal.emailDate, signal.messageId)
                                 else None)
      && r.value.target == (if r.value.disposition !in {Eligible, KillSwitched} then map[] else TargetOf(signal))
  }

  function TargetOf(signal: Signal): map<Field, string> {
    if signal.event == Rejection then
      map[StatusField := "Rejected", LastUpdate := signal.emailDate,
          RejectionReason := if signal.rejectionReason == "" then "Employer rejection received."
                             else signal.rejectionReason]
    else
      map[StatusField := "Applied", LastUpdate := signal.emailDate, AppliedDate := signal.emailDate,
          NextAction := "Monitor application / follow up if appropriate"]
  }

  lemma TransitionAnswers(signal: Signal, key: string, s: OpportunityState, to: string, rule: string, logged: bool,
                          a: Authority, target: map<Field, string>)
    requires a.Valid() && !IsBlank(signal.messageId)
    ensures var r := PlanTransition(signal, key, s, to, rule, logged, a, target);
            var allowed := (s.status, to, rule) in a.allowed;
            if allowed && IsBlank(signal.emailDate) then r == Err(ValueMissing)
            else
              var d := if !allowed then PreconditionFailed else if logged then DuplicateSuppressed
                       else if a.mutationFlag then Eligible else KillSwitched;
              r == Ok(Plan(d, d == Eligible, key,
                           if allowed then PipelineKey(OpportunityKey(s), s.status, to, signal.emailDate, signal.messageId)
                           else None,
                           Some(OpportunityKey(s)), Some(s.status), Some(to), Some(rule), Some(FingerprintOf(s)),
                           if d == Eligible || d == KillSwitched then target else map[]))
  {
    if (s.status, to, rule) in a.allowed {
      TransitionIsKeyed(signal, s, to, rule);
    }
  }

  lemma ReceiptAnswers(signal: Signal, key: string, s: OpportunityState, logged: bool, a: Authority)
    requires a.Valid() && !IsBlank(signal.messageId) && signal.event == ApplicationReceived
    ensures Answers(PlanReceipt(signal, key, s, logged, a), signal, s, logged, a)
    ensures var r := PlanReceipt(signal, key, s, logged, a);
            r.Ok? ==> r.value.outcomeKey == key && (r.value.shouldMutate <==> r.value.disposition == Eligible)
  {
    assert ReceiptTarget(signal) == TargetOf(signal);
    AllowedIff(s.status, "Applied", "ST-01");
    TransitionAnswers(signal, key, s, "Applied", "ST-01", logged, a, ReceiptTarget(signal));
  }

  lemma RejectionAnswers(signal: Signal, key: string, s: OpportunityState, logged: bool, a: Authority)
    requires a.Valid() && !IsBlank(signal.messageId) && signal.event == Rejection
    ensures Answers(PlanRejection(signal, key, s, logged, a), signal, s, logged, a)
    ensures var r := PlanRejection(signal, key, s, logged, a);
            r.Ok? ==> r.value.outcomeKey == key && (r.value.shouldMutate <==> r.value.disposition == Eligible)
  {
    assert RejectionTarget(signal) == TargetOf(signal);
    AllowedIff(s.status, "Rejected", "ST-07");
    TransitionAnswers(signal, key, s, "Rejected", "ST-07", logged, a, RejectionTarget(signal));
  }

  /** Every plan, for every input: what is planned, why not, and on which state. */
  lemma PlannerAnswers(signal: Signal, state: Option<OpportunityState>, outcomeLogged: bool, pipelineLogged: bool,
                       a: Authority)
    ensures var r := PlanOutcome(signal, state, outcomeLogged, pipelineLogged, a);
            && (r == Err(AuthorityRefused) <==> !a.Valid())
            && (a.Valid() && IsBlank(signal.messageId) ==> r == Err(ValueMissing))
            && (a.Valid() && !IsBlank(signal.messageId) ==>
                  if Considered(signal, state, outcomeLogged) then
                    Answers(r, signal, state.value, pipelineLogged, a)
                  else
                    r == Ok(Plan(if outcomeLogged then DuplicateSuppressed
                                 else if signal.confidence != High || !signal.exactMatch || state == None then AuditOnly
                                 else PreconditionFailed,
                                 false, "gmail:" + Strip(signal.messageId), None, None, None, None, None, None, map[])))
            && (r.Ok? ==> && r.value.outcomeKey == "gmail:" + Strip(signal.messageId)
                          && (r.value.shouldMutate <==> r.value.disposition == Eligible))
  {
    if a.Valid() && !IsBlank(signal.messageId) && Considered(signal, state, outcomeLogged) {
      var key := "gmail:" + Strip(signal.messageId);
      if signal.event == Rejection {
        RejectionAnswers(signal, key, state.value, pipelineLogged, a);
      } else {
        ReceiptAnswers(signal, key, state.value, pipelineLogged, a);
      }
    }
  }

  /** What each rule may touch, and must. */
  lemma PatchValidIff(p: Plan)
    ensures PatchValid(p) <==>
            && StatusField in p.target && LastUpdate in p.target
            && ((p.rule == Some("ST-01") && AppliedDate in p.target && RejectionReason !in p.target)
                || (p.rule == Some("ST-07") && RejectionReason in p.target && AppliedDate !in p.target
                    && NextAction !in p.target))
  {
    forall f | f in p.target
      ensures f in {StatusField, AppliedDate, NextAction, LastUpdate, RejectionReason}
    {
      match f {
        case StatusField =>
        case AppliedDate =>
        case NextAction =>
        case LastUpdate =>
        case RejectionReason =>
      }
    }
    assert StatusField in AllowedFields(Some("ST-01")) && StatusField in AllowedFields(Some("ST-07"));
  }

  /** Cells are built exactly for a row below the header and a patch that its rule allows. */
  lemma PatchesAreBuiltIff(row: int, p: Plan)
    ensures BuildCellPatches(row, p).Some? <==>
            && 2 <= row && StatusField in p.target && LastUpdate in p.target
            && ((p.rule == Some("ST-01") && AppliedDate in p.target && RejectionReason !in p.target)
                || (p.rule == Some("ST-07") && RejectionReason in p.target && AppliedDate !in p.target
                    && NextAction !in p.target))
  {
    PatchValidIff(p);
  }

  /** The boundary of the canary: what an authority may not claim, and must. */
  lemma AuthorityIff(a: Authority)
    ensures a.Valid() <==>
            && a.applicationsWrite && a.pipelineAppend && a.outcomeAppend
            && !(a.userFactWrites || a.externalFormWrites || a.terminalReopen || a.finalSubmit)
            && forall t: Transition :: t in a.allowed ==>
                 (t.0 == "To Apply" && t.1 == "Applied" && t.2 == "ST-01")
                 || (t.0 in ACTIVE_SUBMITTED && t.1 == "Rejected" && t.2 == "ST-07")
  {
    forall t: Transition
      ensures t in INITIAL_ALLOWED <==>
              (t.0 == "To Apply" && t.1 == "Applied" && t.2 == "ST-01")
              || (t.0 in ACTIVE_SUBMITTED && t.1 == "Rejected" && t.2 == "ST-07")
    {
      AllowedIff(t.0, t.1, t.2);
    }
  }

  lemma {:induction false} EveryFieldIsPatched(fields: seq<Field>, row: nat, target: map<Field, string>, f: Field)
    requires f in fields && f in target
    ensures CellPatch(ColumnOf(f), row, target[f]) in PatchesFrom(fields, row, target)
  {
    if fields[0] != f {
      EveryFieldIsPatched(fields[1..], row, target, f);
    }
  }

  predicate Ascending(patches: seq<CellPatch>) {
    forall i, j | 0 <= i < j < |patches| :: patches[i].column < patches[j].column
  }

  /** Fields in column order make patches in column order. */
  lemma {:induction false} PatchesAscend(fields: seq<Field>, row: nat, target: map<Field, string>)
    requires forall i, j | 0 <= i < j < |fields| :: ColumnOf(fields[i]) < ColumnOf(fields[j])
    ensures Ascending(PatchesFrom(fields, row, target))
    ensures forall c | c in PatchesFrom(fields, row, target) :: exists f :: f in fields && c.column == ColumnOf(f)
  {
    if fields != [] {
      var rest := PatchesFrom(fields[1..], row, target);
      PatchesAscend(fields[1..], row, target);
      forall c | c in PatchesFrom(fields, row, target)
        ensures exists f :: f in fields && c.column == ColumnOf(f)
      {
        if c in rest {
          var f :| f in fields[1..] && c.column == ColumnOf(f);
          assert f in fields;
        } else {
          assert fields[0] in fields && c.column == ColumnOf(fields[0]);
        }
      }
      forall i | 0 <= i < |rest|
        ensures ColumnOf(fields[0]) < rest[i].column
      {
        assert rest[i] in rest;
        var f :| f in fields[1..] && rest[i].column == ColumnOf(f);
        var k :| 0 <= k < |fields[1..]| && fields[1..][k] == f;
        assert fields[k + 1] == f;
      }
    }
  }

  /** One cell for every target field, in column order, whatever the fields are. */
  lemma {:induction false} OrderedPatches(fields: seq<Field>, row: nat, target: map<Field, string>)
    requires fields != [] && fields[0] in target && forall f | f in target :: f in fields
    requires forall i, j | 0 <= i < j < |fields| :: ColumnOf(fields[i]) < ColumnOf(fields[j])
    ensures var patches := PatchesFrom(fields, row, target);
            && |patches| == |target| && patches[0] == CellPatch(ColumnOf(fields[0]), row, target[fields[0]])
            && (forall c | c in patches :: exists f :: f in target && c == CellPatch(ColumnOf(f), row, target[f]))
            && (forall f | f in target :: CellPatch(ColumnOf(f), row, target[f]) in patches)
            && Ascending(patches)
  {
    PatchContents(fields, row, target);
    assert target.Keys == set f | f in fields && f in target;
    PatchesAscend(fields, row, target);
    forall f | f in target
      ensures CellPatch(ColumnOf(f), row, target[f]) in PatchesFrom(fields, row, target)
    {
      EveryFieldIsPatched(fields, row, target, f);
    }
  }

  lemma FieldOrderIsComplete()
    ensures FIELD_ORDER[0] == StatusField && ColumnOf(StatusField) == 'J'
    ensures forall f: Field :: f in FIELD_ORDER
    ensures forall i, j | 0 <= i < j < |FIELD_ORDER| :: ColumnOf(FIELD_ORDER[i]) < ColumnOf(FIELD_ORDER[j])
  {
    forall f: Field
      ensures f in FIELD_ORDER
    {
      var k := match f case StatusField => 0 case AppliedDate => 1 case NextAction => 2 case LastUpdate => 3
                       case RejectionReason => 4;
      assert FIELD_ORDER[k] == f;
    }
  }

  /**
   The patch of a planner-made plan can always be built: one cell for every
   target field and no other, in column order, the new status first.
   */
  lemma PatchIsExact(p: Plan, row: nat)
    requires WellPlanned(p) && row >= 2
    ensures var patches := BuildCellPatches(row, p);
            && patches.Some? && |patches.value| == |p.target|
            && patches.value[0] == CellPatch('J', row, p.toState.value)
            && (forall c | c in patches.value :: exists f :: f in p.target && c == CellPatch(ColumnOf(f), row, p.target[f]))
            && (forall f | f in p.target :: CellPatch(ColumnOf(f), row, p.target[f]) in patches.value)
            && Ascending(patches.value)
  {
    FieldOrderIsComplete();
    OrderedPatches(FIELD_ORDER, row, p.target);
  }

  lemma {:induction false} PatchContents(fields: seq<Field>, row: nat, target: map<Field, string>)
    requires forall i, j | 0 <= i < j < |fields| :: fields[i] != fields[j]
    ensures var patches := PatchesFrom(fields, row, target);
            && |patches| == |set f | f in fields && f in target|
            && (forall c | c in patches :: exists f :: f in target && f in fields && c == CellPatch(ColumnOf(f), row, target[f]))
            && (fields != [] && fields[0] in target ==>
                  patches != [] && patches[0] == CellPatch(ColumnOf(fields[0]), row, target[fields[0]]))
  {
    if fields == [] {
      assert (set f | f in fields && f in target) == {};
    } else {
      var first, rest := fields[0], fields[1..];
      PatchContents(rest, row, target);
      SelectedFields(fields, target);
      var patches := PatchesFrom(fields, row, target);
      forall c | c in patches
        ensures exists f :: f in target && f in fields && c == CellPatch(ColumnOf(f), row, target[f])
      {
        if c in PatchesFrom(rest, row, target) {
          var f :| f in target && f in rest && c == CellPatch(ColumnOf(f), row, target[f]);
          assert f in fields;
        } else {
          assert first in target && first in fields && c == CellPatch(ColumnOf(first), row, target[first]);
        }
      }
    }
  }

  lemma SelectedFields(fields: seq<Field>, target: map<Field, string>)
    requires fields != [] && fields[0] !in fields[1..]
    ensures var rest := set f | f in fields[1..] && f in target;
            && fields[0] !in rest
            && (set f | f in fields && f in target) == if fields[0] in target then {fields[0]} + rest else rest
  {
    assert fields == [fields[0]] + fields[1..];
  }
}
