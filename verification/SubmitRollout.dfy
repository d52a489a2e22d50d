/**
 The immutable attempt registry, and a day of submissions at one rollout stage:
 each request is validated against the registry's keys and the day's count, and
 an eligible one is reserved before the next is looked at.
 */
module SubmitRollout {
  import opened Wrappers
  import opened Identity
  import opened SubmitPolicy

  datatype Attempt = Attempt(submitKey: string, executionId: string, opportunityKey: string, requisitionId: string,
                             profileVersion: string, policyVersion: string, validationKey: string, requestedAt: string,
                             formFingerprint: string)

  /** `_put_immutable`: stored, already there with the same content, or a collision. */
  datatype Put = Stored | Unchanged | Collision

  function PutImmutable<V(==)>(store: map<string, V>, key: string, value: V): (map<string, V>, Put) {
    if key !in store then (store[key := value], Stored)
    else if store[key] == value then (store, Unchanged)
    else (store, Collision)
  }

  /** `create_submission_attempt`; None is its refusal. */
  function CreateAttempt(r: Request, v: Validation, requestedAt: string): Option<Attempt> {
    if !v.executionAllowed || v.decision != Eligible then None
    else Some(Attempt(v.submitKey, r.executionId, r.opportunityKey, r.requisitionId, r.profileVersion, r.policyVersion,
                      v.validationKey, requestedAt, r.formFingerprint))
  }

  /** What a granted request leaves in the registry: its own identities under both keys of the validation. */
  predicate Describes(attempt: Attempt, r: Request, v: Validation) {
    && attempt.submitKey == v.submitKey && attempt.validationKey == v.validationKey
    && attempt.executionId == r.executionId && attempt.opportunityKey == r.opportunityKey
    && attempt.requisitionId == r.requisitionId && attempt.profileVersion == r.profileVersion
    && attempt.policyVersion == r.policyVersion && attempt.formFingerprint == r.formFingerprint
  }

  datatype Day = Day(attempts: map<string, Attempt>, today: nat, granted: seq<string>)

  /** The request as it is asked now: the key set and the count come from the day, the stage is fixed. */
  function Asked(d: Day, stage: Stage, r: Request): Request {
    r.(stage := stage, submissionsToday := d.today, existingKeys := d.attempts.Keys)
  }

  function Handle(d: Day, stage: Stage, r: Request, p: Policy, a: SubmitAuthority): Day {
    var v := Validate(Asked(d, stage, r), p, a);
    if v.Err? then d
    else
      match CreateAttempt(Asked(d, stage, r), v.value, "")
      case None => d
      case Some(attempt) =>
        if attempt.submitKey == "" then d
        else
          var (attempts, put) := PutImmutable(d.attempts, attempt.submitKey, attempt);
          if put.Stored? then Day(attempts, d.today + 1, d.granted + [attempt.submitKey]) else d.(attempts := attempts)
  }

  function HandleAll(d: Day, stage: Stage, rs: seq<Request>, p: Policy, a: SubmitAuthority): Day {
    if rs == [] then d
    else Handle(HandleAll(d, stage, rs[..|rs| - 1], p, a), stage, rs[|rs| - 1], p, a)
  }

  /** What an Eligible decision says about the day: a new key, and room under the cap. */
  lemma EligibleHasRoom(d: Day, stage: Stage, r: Request, p: Policy, a: SubmitAuthority)
    ensures var v := Validate(Asked(d, stage, r), p, a);
            v.Ok? && v.value.decision == Eligible ==>
              v.value.executionAllowed && v.value.submitKey !in d.attempts && v.value.submitKey != ""
              && d.today < DailyCap(stage)
  {
    EligibleIff(Asked(d, stage, r), p);
    EligibleIsComplete(Asked(d, stage, r), p, a);
  }

  /** A decision for Eligible is granted a new attempt, and nothing else is: none is ever lost or repeated. */
  lemma EligibleIsGranted(d: Day, stage: Stage, r: Request, p: Policy, a: SubmitAuthority)
    ensures var v := Validate(Asked(d, stage, r), p, a);
            if v.Ok? && v.value.decision == Eligible then
              && v.value.submitKey !in d.attempts
              && Handle(d, stage, r, p, a).granted == d.granted + [v.value.submitKey]
              && Handle(d, stage, r, p, a).attempts.Keys == d.attempts.Keys + {v.value.submitKey}
              && (forall k | k in d.attempts :: Handle(d, stage, r, p, a).attempts[k] == d.attempts[k])
              && Describes(Handle(d, stage, r, p, a).attempts[v.value.submitKey], r, v.value)
              && Handle(d, stage, r, p, a).today == d.today + 1
              && d.today < DailyCap(stage)
            else Handle(d, stage, r, p, a) == d
  {
    EligibleHasRoom(d, stage, r, p, a);
  }

  ghost predicate DayOk(d: Day, stage: Stage, before: set<string>) {
    && d.today == |d.granted| <= DailyCap(stage)
    && (forall i, j | 0 <= i < j < |d.granted| :: d.granted[i] != d.granted[j])
    && (forall k | k in d.granted :: k !in before)
    && d.attempts.Keys == before + set k | k in d.granted
  }

  lemma GrantKeepsDay(d: Day, e: Day, key: string, stage: Stage, before: set<string>)
    requires DayOk(d, stage, before) && key !in d.attempts && d.today < DailyCap(stage)
    requires e.granted == d.granted + [key] && e.attempts.Keys == d.attempts.Keys + {key} && e.today == d.today + 1
    ensures DayOk(e, stage, before)
  {
    assert key in e.granted;
    assert forall k :: k in e.granted <==> k in d.granted || k == key;
  }

  /**
   However many requests are made, a fixed stage grants at most its daily cap
   (0, 1 or 5), all with distinct keys that were not known before.
   */
  lemma {:induction false} DailyCapHolds(known: map<string, Attempt>, stage: Stage, rs: seq<Request>, p: Policy,
                                         a: SubmitAuthority)
    ensures DayOk(HandleAll(Day(known, 0, []), stage, rs, p, a), stage, known.Keys)
  {
    if rs != [] {
      var n := |rs| - 1;
      DailyCapHolds(known, stage, rs[..n], p, a);
      var d := HandleAll(Day(known, 0, []), stage, rs[..n], p, a);
      EligibleIsGranted(d, stage, rs[n], p, a);
      var v := Validate(Asked(d, stage, rs[n]), p, a);
      if v.Ok? && v.value.decision == Eligible {
        GrantKeepsDay(d, Handle(d, stage, rs[n], p, a), v.value.submitKey, stage, known.Keys);
      }
    }
  }

  class InMemorySubmitRepository {
    var attempts: map<string, Attempt>

    constructor ()
      ensures attempts == map[]
    {
      attempts := map[];
    }

    method ReserveAttempt(attempt: Attempt) returns (put: Put)
      requires attempt.submitKey != ""
      modifies this
      ensures (attempts, put) == PutImmutable(old(attempts), attempt.submitKey, attempt)
      ensures put == Stored <==> attempt.submitKey !in old(attempts)
      ensures put == Unchanged <==> attempt.submitKey in old(attempts) && old(attempts)[attempt.submitKey] == attempt
      ensures attempts == if put == Stored then old(attempts)[attempt.submitKey := attempt] else old(attempts)
    {
      if attempt.submitKey in attempts {
        return if attempts[attempt.submitKey] == attempt then Unchanged else Collision;
      }
      attempts := attempts[attempt.submitKey := attempt];
      return Stored;
    }
  }

  /** One day as it runs, against the registry object. */
  method RunDay(repo: InMemorySubmitRepository, stage: Stage, rs: seq<Request>, p: Policy, a: SubmitAuthority)
    returns (granted: seq<string>)
    modifies repo
    ensures Day(repo.attempts, |granted|, granted) == HandleAll(Day(old(repo.attempts), 0, []), stage, rs, p, a)
    ensures |granted| <= DailyCap(stage)
  {
    ghost var start := Day(repo.attempts, 0, []);
    granted := [];
    for i := 0 to |rs|
      invariant Day(repo.attempts, |granted|, granted) == HandleAll(start, stage, rs[..i], p, a)
    {
      assert rs[..i + 1][..i] == rs[..i];
      ghost var before := Day(repo.attempts, |granted|, granted);
      EligibleIsGranted(before, stage, rs[i], p, a);
      var asked := rs[i].(stage := stage, submissionsToday := |granted|, existingKeys := repo.attempts.Keys);
      assert asked == Asked(before, stage, rs[i]);
      var v := ValidatePreSubmit(asked, p, a);
      if v.Ok? && v.value.executionAllowed && v.value.decision == Eligible {
        var attempt := CreateAttempt(asked, v.value, "");
        if attempt.value.submitKey != "" {
          var put := repo.ReserveAttempt(attempt.value);
          if put.Stored? {
            granted := granted + [attempt.value.submitKey];
          }
        }
      }
    }
    assert rs[..|rs|] == rs;
    DailyCapHolds(start.attempts, stage, rs, p, a);
  }
}
