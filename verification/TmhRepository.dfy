/**
 The template and history store: keys of executions, events and artifacts, and
 the append-only event log, a dictionary beside a list of keys in arrival order.

 The log is append-only: an event is stored under its key once, stored again
 without effect, or refused as a collision. What list and dictionary hold is told
 by the history of calls alone.
 */
module TmhRepository {
  import opened Wrappers
  import opened Identity
  import opened SubmitRollout

  // ----- Keys; None stands for the ValueError of a missing component

  function ExecutionIdentity(opportunity: string, requisition: string, attempt: int): Option<string> {
    if IsBlank(opportunity) || IsBlank(requisition) || attempt < 1 then None
    else Some("exec:" + (KeyPart(opportunity) + ":" + (KeyPart(requisition) + ":" + Decimal(attempt))))
  }

  function ExecutionEventKey(executionId: string, sequence: int, eventType: string): Option<string> {
    if IsBlank(executionId) || IsBlank(eventType) || sequence < 1 then None
    else Some("execevent:" + ((executionId + ":" + Decimal(sequence)) + ":" + KeyPart(eventType)))
  }

  function ArtifactKey(executionId: string, artifactType: string, versionOrHash: string): Option<string> {
    if IsBlank(executionId) || IsBlank(artifactType) || IsBlank(versionOrHash) then None
    else Some("artifact:" + ((executionId + ":" + KeyPart(artifactType)) + ":" + KeyPart(versionOrHash)))
  }

  lemma {:induction false} DecimalHasNoColon(n: nat)
    ensures ':' !in Decimal(n)
  {
    DecimalIsDigits(n);
    assert forall c | c in Decimal(n) :: IsDigit(c);
  }

  lemma ExecutionIdentityIsExact(o1: string, r1: string, n1: int, o2: string, r2: string, n2: int)
    requires ExecutionIdentity(o1, r1, n1).Some? && ExecutionIdentity(o2, r2, n2).Some?
    ensures ExecutionIdentity(o1, r1, n1) == ExecutionIdentity(o2, r2, n2) <==>
            KeyPart(o1) == KeyPart(o2) && KeyPart(r1) == KeyPart(r2) && n1 == n2
  {
    KeyPartNormalises(o1);
    KeyPartNormalises(o2);
    KeyPartNormalises(r1);
    KeyPartNormalises(r2);
    ThreePartsDetermined("exec:", KeyPart(o1), KeyPart(r1), Decimal(n1), KeyPart(o2), KeyPart(r2), Decimal(n2));
    if Decimal(n1) == Decimal(n2) {
      DecimalIsInjective(n1, n2);
    }
  }

  /** The last two parts hold no colon, so they can be split off whatever the execution id holds. */
  lemma TailPartsDetermined(prefix: string, x1: string, a1: string, b1: string, x2: string, a2: string, b2: string)
    requires ':' !in a1 && ':' !in b1 && ':' !in a2 && ':' !in b2
    ensures prefix + ((x1 + ":" + a1) + ":" + b1) == prefix + ((x2 + ":" + a2) + ":" + b2) <==>
            x1 == x2 && a1 == a2 && b1 == b2
  {
    var s := (x1 + ":" + a1) + ":" + b1;
    var t := (x2 + ":" + a2) + ":" + b2;
    if prefix + s == prefix + t {
      assert s == (prefix + s)[|prefix|..] && t == (prefix + t)[|prefix|..];
      LastPartDetermined(x1 + ":" + a1, b1, x2 + ":" + a2, b2);
      LastPartDetermined(x1, a1, x2, a2);
    }
  }

  /** Two events share a key exactly when execution, sequence and normalised type agree, even with colons in the execution id. */
  lemma ExecutionEventKeyIsExact(x1: string, n1: int, t1: string, x2: string, n2: int, t2: string)
    requires ExecutionEventKey(x1, n1, t1).Some? && ExecutionEventKey(x2, n2, t2).Some?
    ensures ExecutionEventKey(x1, n1, t1) == ExecutionEventKey(x2, n2, t2) <==>
            x1 == x2 && n1 == n2 && KeyPart(t1) == KeyPart(t2)
  {
    KeyPartNormalises(t1);
    KeyPartNormalises(t2);
    DecimalHasNoColon(n1);
    DecimalHasNoColon(n2);
    TailPartsDetermined("execevent:", x1, Decimal(n1), KeyPart(t1), x2, Decimal(n2), KeyPart(t2));
    if Decimal(n1) == Decimal(n2) {
      DecimalIsInjective(n1, n2);
    }
  }

  lemma ArtifactKeyIsExact(x1: string, t1: string, v1: string, x2: string, t2: string, v2: string)
    requires ArtifactKey(x1, t1, v1).Some? && ArtifactKey(x2, t2, v2).Some?
    ensures ArtifactKey(x1, t1, v1) == ArtifactKey(x2, t2, v2) <==>
            x1 == x2 && KeyPart(t1) == KeyPart(t2) && KeyPart(v1) == KeyPart(v2)
  {
    KeyPartNormalises(t1);
    KeyPartNormalises(t2);
    KeyPartNormalises(v1);
    KeyPartNormalises(v2);
    TailPartsDetermined("artifact:", x1, KeyPart(t1), KeyPart(v1), x2, KeyPart(t2), KeyPart(v2));
  }

  /** A key is given exactly for visible parts and a count from one on. */
  lemma KeysAreGivenIff(a: string, b: string, c: string, n: int)
    ensures ExecutionIdentity(a, b, n).Some? <==> Visible(a) && Visible(b) && 1 <= n
    ensures ExecutionEventKey(a, n, b).Some? <==> Visible(a) && Visible(b) && 1 <= n
    ensures ArtifactKey(a, b, c).Some? <==> Visible(a) && Visible(b) && Visible(c)
  {
    BlankIff(a);
    BlankIff(b);
    BlankIff(c);
  }

  // ----- The event log

  /** An event; everything that does not enter its key travels in `body`. */
  datatype Event = Event(executionId: string, sequence: int, eventType: string, body: string)

  function KeyOf(e: Event): Option<string> {
    ExecutionEventKey(e.executionId, e.sequence, e.eventType)
  }

  /** Two events claim the same place in the log. */
  predicate SamePlace(a: Event, b: Event) {
    a.executionId == b.executionId && a.sequence == b.sequence && KeyPart(a.eventType) == KeyPart(b.eventType)
  }

  datatype Log = Log(events: map<string, Event>, order: seq<string>)

  datatype Append = Refused | Put(put: SubmitRollout.Put)

  function OnAppend(log: Log, e: Event): (Log, Append) {
    match KeyOf(e)
    case None => (log, Refused)
    case Some(key) =>
      var (events, put) := PutImmutable(log.events, key, e);
      (Log(events, if put.Stored? then log.order + [key] else log.order), Append.Put(put))
  }

  function AfterAppends(calls: seq<Event>): Log {
    if calls == [] then Log(map[], [])
    else OnAppend(AfterAppends(calls[..|calls| - 1]), calls[|calls| - 1]).0
  }

  /** The history without keys: an event with valid parts is accepted unless one in its place already is. */
  function AcceptedEvents(calls: seq<Event>): seq<Event> {
    if calls == [] then []
    else
      var n := |calls| - 1;
      var before := AcceptedEvents(calls[..n]);
      if KeyOf(calls[n]).None? || exists e | e in before :: SamePlace(e, calls[n]) then before else before + [calls[n]]
  }

  /** The list and the dictionary in step with each other and with the accepted history. */
  ghost predicate InStep(log: Log, accepted: seq<Event>) {
    && |log.order| == |accepted|
    && (forall i | 0 <= i < |accepted| ::
          KeyOf(accepted[i]) == Some(log.order[i]) && log.order[i] in log.events && log.events[log.order[i]] == accepted[i])
    && (forall i, j | 0 <= i < j < |log.order| :: log.order[i] != log.order[j])
    && (forall k | k in log.events :: k in log.order)
  }

  /** In a log that is in step, a key is present exactly when an accepted event holds the place. */
  lemma KeyPresentIff(log: Log, accepted: seq<Event>, e: Event)
    requires InStep(log, accepted) && KeyOf(e).Some?
    ensures KeyOf(e).value in log.events <==> exists a | a in accepted :: SamePlace(a, e)
    ensures KeyOf(e).value in log.events ==>
              log.events[KeyOf(e).value] in accepted && SamePlace(log.events[KeyOf(e).value], e)
  {
    forall i | 0 <= i < |accepted|
      ensures log.order[i] == KeyOf(e).value <==> SamePlace(accepted[i], e)
    {
      var a := accepted[i];
      ExecutionEventKeyIsExact(a.executionId, a.sequence, a.eventType, e.executionId, e.sequence, e.eventType);
    }
    if KeyOf(e).value in log.events {
      var i :| 0 <= i < |log.order| && log.order[i] == KeyOf(e).value;
      assert accepted[i] in accepted;
    }
    if a :| a in accepted && SamePlace(a, e) {
      var i :| 0 <= i < |accepted| && accepted[i] == a;
      assert log.order[i] == KeyOf(e).value;
    }
  }

  lemma StoreKeepsStep(log: Log, accepted: seq<Event>, e: Event, key: string)
    requires InStep(log, accepted) && KeyOf(e) == Some(key) && key !in log.events
    ensures InStep(Log(log.events[key := e], log.order + [key]), accepted + [e])
  {
    var after := Log(log.events[key := e], log.order + [key]);
    assert key !in log.order by {
      assert forall i | 0 <= i < |log.order| :: log.order[i] in log.events;
    }
    forall i | 0 <= i < |accepted| + 1
      ensures KeyOf((accepted + [e])[i]) == Some(after.order[i])
      ensures after.order[i] in after.events && after.events[after.order[i]] == (accepted + [e])[i]
    {
      if i < |accepted| {
        assert log.order[i] in log.events && log.events[log.order[i]] == accepted[i];
      }
    }
    forall i, j | 0 <= i < j < |after.order|
      ensures after.order[i] != after.order[j]
    {
      if j == |log.order| {
        assert log.order[i] in log.order;
      }
    }
  }

  lemma AppendKeepsStep(log: Log, accepted: seq<Event>, e: Event)
    requires InStep(log, accepted)
    ensures InStep(OnAppend(log, e).0,
                   if KeyOf(e).None? || exists a | a in accepted :: SamePlace(a, e) then accepted else accepted + [e])
  {
    if KeyOf(e).Some? {
      KeyPresentIff(log, accepted, e);
      if KeyOf(e).value !in log.events {
        StoreKeepsStep(log, accepted, e, KeyOf(e).value);
      }
    }
  }

  /** Over any calls: the order list is duplicate-free, has the dictionary's keys, and lists the accepted events as they came. */
  lemma {:induction false} LogStaysInStep(calls: seq<Event>)
    ensures InStep(AfterAppends(calls), AcceptedEvents(calls))
  {
    if calls != [] {
      var n := |calls| - 1;
      LogStaysInStep(calls[..n]);
      AppendKeepsStep(AfterAppends(calls[..n]), AcceptedEvents(calls[..n]), calls[n]);
    }
  }

  /** The answer to an append, told by the accepted history alone. */
  lemma {:induction false} AppendIsDecidedByPlace(calls: seq<Event>, e: Event)
    requires KeyOf(e).Some?
    ensures var reply := OnAppend(AfterAppends(calls), e).1; var accepted := AcceptedEvents(calls);
            && (reply == Append.Put(Stored) <==> !exists a | a in accepted :: SamePlace(a, e))
            && (reply == Append.Put(Unchanged) <==> e in accepted)
            && (reply == Append.Put(Collision) <==> e !in accepted && exists a | a in accepted :: SamePlace(a, e))
  {
    LogStaysInStep(calls);
    var log, accepted := AfterAppends(calls), AcceptedEvents(calls);
    KeyPresentIff(log, accepted, e);
    if e in accepted {
      assert SamePlace(e, e);
      var i :| 0 <= i < |accepted| && accepted[i] == e;
      assert log.order[i] == KeyOf(e).value;
    }
  }

  /** `events_for_execution` on the accepted history. */
  function EventsOf(accepted: seq<Event>, executionId: string): seq<Event> {
    if accepted == [] then []
    else
      var n := |accepted| - 1;
      EventsOf(accepted[..n], executionId) + if accepted[n].executionId == executionId then [accepted[n]] else []
  }

  class InMemoryTmhRepository {
    var executionEvents: map<string, Event>
    var executionOrder: seq<string>
    ghost var calls: seq<Event>

    /** The fields are where the calls so far lead. */
    ghost predicate Valid()
      reads this
    {
      Log(executionEvents, executionOrder) == AfterAppends(calls)
    }

    constructor ()
      ensures Valid() && calls == []
    {
      executionEvents, executionOrder, calls := map[], [], [];
    }

    method AppendExecutionEvent(e: Event) returns (reply: Append)
      requires Valid()
      modifies this
      ensures Valid() && calls == old(calls) + [e]
      ensures (Log(executionEvents, executionOrder), reply) == OnAppend(old(Log(executionEvents, executionOrder)), e)
    {
      calls := calls + [e];
      assert calls[..|calls| - 1] == old(calls);
      var key := KeyOf(e);
      if key.None? {
        return Refused;
      }
      if key.value in executionEvents {
        return Append.Put(if executionEvents[key.value] == e then Unchanged else Collision);
      }
      executionEvents := executionEvents[key.value := e];
      executionOrder := executionOrder + [key.value];
      return Append.Put(Stored);
    }

    /** Every accepted event of the execution, in the order of arrival, and no other; no key is ever missing. */
    method EventsForExecution(executionId: string) returns (found: seq<Event>)
      requires Valid()
      ensures found == EventsOf(AcceptedEvents(calls), executionId)
    {
      LogStaysInStep(calls);
      ghost var accepted := AcceptedEvents(calls);
      found := [];
      for i := 0 to |executionOrder|
        invariant found == EventsOf(accepted[..i], executionId)
      {
        assert accepted[..i + 1][..i] == accepted[..i];
        var e := executionEvents[executionOrder[i]];
        if e.executionId == executionId {
          found := found + [e];
        }
      }
      assert accepted[..|accepted|] == accepted;
    }
  }
}
