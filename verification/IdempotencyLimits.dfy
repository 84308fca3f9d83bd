/**
 What the idempotency middleware does not promise, and exactly when it holds: one handler at a time per key, and that a
 replay answers the same payload.
 */
module IdempotencyLimits {
  import opened Options
  import opened Json
  import opened JsonEquality
  import opened Fingerprint
  import opened IdempotencyStore
  import opened IdempotencyProtocol

  // ---- One handler at a time ----

  /** Two requests with one key can both run: nothing is registered between the lookup and the handler. */
  lemma TwoHandlersRun(r: Request) returns (events: seq<Event>)
    requires Protected(r)
    ensures RunFrom(INIT, events).Some?
    ensures var p := RunFrom(INIT, events).value.phase; 0 in p && 1 in p && p[0].Running? && p[1].Running?
  {
    hide StoreKey, Hash, Protected, RunFrom;
    var e0, e1, e2, e3 := EArrive(0, r), EArrive(1, r), EResumeCache(0), EResumeCache(1);
    var s1 := Step(INIT, e0);
    var s2 := Step(s1, e1);
    var s3 := Step(s2, e2);
    var s4 := Step(s3, e3);
    events := [e0] + ([e1] + ([e2] + ([e3] + [])));
    RunOne(INIT, e0, [e1] + ([e2] + ([e3] + [])));
    RunOne(s1, e1, [e2] + ([e3] + []));
    RunOne(s2, e2, [e3] + []);
    RunOne(s3, e3, []);
    assert RunFrom(s4, []) == Some(s4) by { RunNone(s4); }
  }

  /** A protected request under the key. */
  predicate Uses(r: Request, key: Text) {
    Protected(r) && StoreKey(r) == key
  }

  /** The handler runs and its response has neither finished nor closed. */
  predicate HandlerOpen(s: State, id: nat) {
    id in s.phase && s.phase[id].Running? && id !in s.closed
  }

  predicate NoArrival(e: Event, key: Text) {
    e.EArrive? ==> !Uses(e.r, key)
  }

  predicate NoArrivals(events: seq<Event>, key: Text) {
    forall i :: 0 <= i < |events| ==> NoArrival(events[i], key)
  }

  ghost predicate OnlyUsers(s: State, a: nat, b: nat, key: Text) {
    forall id :: id in s.req && id != a && id != b ==> !Uses(s.req[id], key)
  }

  /** `a` has looked the key up and found nothing, nothing is recorded or in flight, and `b` has not arrived. */
  ghost predicate Looked(s: State, a: nat, b: nat, key: Text) {
    && Inv(s) && OnlyUsers(s, a, b, key) && a != b && b !in s.req && b !in s.phase
    && a in s.req && a in s.phase && Uses(s.req[a], key) && s.phase[a] == CacheLooked(None)
    && key !in s.inFlight && key !in s.store.values
  }

  /** `a` has registered: until its response closes it stays in flight, and `b` has not arrived or waits for it. */
  ghost predicate Guarded(s: State, a: nat, b: nat, key: Text) {
    && Inv(s) && OnlyUsers(s, a, b, key) && a != b
    && a in s.req && a in s.phase && Uses(s.req[a], key) && s.phase[a].Running?
    && (a in s.closed
        || (key in s.inFlight && s.inFlight[key] == a && (b in s.phase ==> s.phase[b] == Waiting(a))))
  }

  /** Who has left the state of arrival is a user of its own key. */
  lemma OthersUseOtherKeys(s: State, a: nat, b: nat, key: Text, id: nat)
    requires Inv(s) && OnlyUsers(s, a, b, key) && id in s.req && id in s.phase && id != a && id != b
    requires !s.phase[id].Bypassed?
    ensures StoreKey(s.req[id]) != key
  {
    hide StoreKey, Protected, Hash, GoodInFlight, GoodLogged;
    assert GoodPhase(s, s.req[id], s.phase[id]);
  }

  lemma LookedStays(s: State, e: Event, a: nat, b: nat, key: Text)
    requires Looked(s, a, b, key) && CanStep(s, e) && NoArrival(e, key) && e != EResumeCache(a)
    requires e.EArrive? ==> e.id != b
    ensures Looked(Step(s, e), a, b, key)
  {
    hide StoreKey, Protected, Hash, Inv, AllowReplayOnHashMismatch;
    StepKeepsInv(s, e);
    match e
    case EResumeCache(id) => OthersUseOtherKeys(s, a, b, key, id);
    case EJson(id, _, _) => OthersUseOtherKeys(s, a, b, key, id);
    case _ =>
  }

  /** Registering. */
  lemma Registers(s: State, a: nat, b: nat, key: Text)
    requires Looked(s, a, b, key) && CanStep(s, EResumeCache(a))
    ensures Guarded(Step(s, EResumeCache(a)), a, b, key)
  {
    hide StoreKey, Protected, Hash, Inv;
    StepKeepsInv(s, EResumeCache(a));
  }

  lemma ClosedRuns(s: State, id: nat)
    requires Inv(s) && id in s.closed
    ensures id in s.phase && id in s.req && s.phase[id].Running?
  {
    hide StoreKey, Protected, Hash, GoodPhase, GoodInFlight, GoodLogged, InLog;
  }

  lemma GuardedStays(s: State, e: Event, a: nat, b: nat, key: Text)
    requires Guarded(s, a, b, key) && CanStep(s, e)
    requires e.EArrive? ==> (Uses(e.r, key) <==> e.id == b)
    ensures Guarded(Step(s, e), a, b, key)
  {
    hide StoreKey, Protected, Hash, Inv, AllowReplayOnHashMismatch, AfterSet, AfterFire;
    StepKeepsInv(s, e);
    match e
    case EResumeCache(id) =>
      if a !in s.closed { OthersUseOtherKeys(s, a, b, key, id); }
    case EFinalized(id) =>
      ClosedRuns(s, id);
      if a !in s.closed { OthersUseOtherKeys(s, a, b, key, id); }
    case _ =>
  }

  /** The arrivals of a run: only `b` under the key, and under no other. */
  predicate OnlyArrival(events: seq<Event>, b: nat, key: Text) {
    forall i :: 0 <= i < |events| && events[i].EArrive? ==> (Uses(events[i].r, key) <==> events[i].id == b)
  }

  /**
   Once `a` is registered, and with only `b` coming under its key, the two handlers are never open at once: `b` is held
   until the response of `a` has finished or closed.
   */
  lemma {:induction false} RegisteredRunsAlone(s: State, events: seq<Event>, a: nat, b: nat, key: Text)
    requires Guarded(s, a, b, key) && RunFrom(s, events).Some? && OnlyArrival(events, b, key)
    ensures var s' := RunFrom(s, events).value;
            Guarded(s', a, b, key) && !(HandlerOpen(s', a) && HandlerOpen(s', b))
    decreases events
  {
    hide Guarded, Step, CanStep, Uses;
    if events == [] {
      NotBoth(s, a, b, key);
    } else {
      assert events[0].EArrive? ==> (Uses(events[0].r, key) <==> events[0].id == b);
      GuardedStays(s, events[0], a, b, key);
      assert forall i :: 0 <= i < |events| - 1 ==> events[1..][i] == events[i + 1];
      RegisteredRunsAlone(Step(s, events[0]), events[1..], a, b, key);
    }
  }

  lemma NotBoth(s: State, a: nat, b: nat, key: Text)
    requires Guarded(s, a, b, key)
    ensures !(HandlerOpen(s, a) && HandlerOpen(s, b))
  {
    hide Inv, OnlyUsers, Uses;
  }

  /** Nobody arrives under the key, and `b` does not arrive. */
  predicate Before(events: seq<Event>, b: nat, key: Text) {
    forall i :: 0 <= i < |events| && events[i].EArrive? ==> !Uses(events[i].r, key) && events[i].id != b
  }

  /** Until `b` arrives, either `a` is where it was or it has registered. */
  lemma {:induction false} LookedOrGuarded(s: State, events: seq<Event>, a: nat, b: nat, key: Text)
    requires Looked(s, a, b, key) && RunFrom(s, events).Some? && Before(events, b, key)
    ensures var s' := RunFrom(s, events).value;
            if EResumeCache(a) in events then Guarded(s', a, b, key) else Looked(s', a, b, key)
    decreases events
  {
    hide Looked, Guarded, Step, CanStep, Uses;
    if events != [] {
      var e, rest := events[0], events[1..];
      assert events == [e] + rest;
      assert e.EArrive? ==> !Uses(e.r, key) && e.id != b;
      assert forall i :: 0 <= i < |rest| ==> rest[i] == events[i + 1];
      if e == EResumeCache(a) {
        Registers(s, a, b, key);
        RegisteredRunsAlone(Step(s, e), rest, a, b, key);
      } else {
        LookedStays(s, e, a, b, key);
        LookedOrGuarded(Step(s, e), rest, a, b, key);
      }
    }
  }

  /** Some continuation without further arrivals under the key has both handlers open. */
  ghost predicate CanBothBeOpen(s: State, a: nat, b: nat, key: Text) {
    exists later :: BothOpenAfter(s, later, a, b, key)
  }

  ghost predicate BothOpenAfter(s: State, later: seq<Event>, a: nat, b: nat, key: Text) {
    && RunFrom(s, later).Some? && NoArrivals(later, key)
    && HandlerOpen(RunFrom(s, later).value, a) && HandlerOpen(RunFrom(s, later).value, b)
  }

  lemma ArrivesWaiting(s: State, r: Request, a: nat, b: nat, key: Text)
    requires Guarded(s, a, b, key) && CanStep(s, EArrive(b, r)) && Uses(r, key)
    ensures Guarded(Step(s, EArrive(b, r)), a, b, key) && b in Step(s, EArrive(b, r)).phase
  {
    hide StoreKey, Protected, Hash, Inv;
    GuardedStays(s, EArrive(b, r), a, b, key);
  }

  /** Who has arrived does not arrive again. */
  lemma {:induction false} ArrivedOnce(s: State, events: seq<Event>, b: nat)
    requires RunFrom(s, events).Some? && b in s.phase
    ensures forall i :: 0 <= i < |events| && events[i].EArrive? ==> events[i].id != b
    decreases events
  {
    hide StoreKey, Hash, Protected, AfterSet, AfterFire, Enter;
    if events != [] {
      ArrivedOnce(Step(s, events[0]), events[1..], b);
      assert forall i :: 0 < i < |events| ==> events[i] == events[1..][i - 1];
    }
  }

  lemma LateArrivalWaits(s: State, r: Request, a: nat, b: nat, key: Text)
    requires Guarded(s, a, b, key) && CanStep(s, EArrive(b, r)) && Uses(r, key)
    ensures !CanBothBeOpen(Step(s, EArrive(b, r)), a, b, key)
  {
    hide Guarded, Step, CanStep, Uses;
    ArrivesWaiting(s, r, a, b, key);
    var s' := Step(s, EArrive(b, r));
    forall later
      ensures !BothOpenAfter(s', later, a, b, key)
    {
      if RunFrom(s', later).Some? && NoArrivals(later, key) {
        ArrivedOnce(s', later, b);
        assert forall i :: 0 <= i < |later| ==> NoArrival(later[i], key);
        RegisteredRunsAlone(s', later, a, b, key);
      }
    }
  }

  lemma EarlyArrivalRuns(s: State, r: Request, a: nat, b: nat, key: Text)
    requires Looked(s, a, b, key) && CanStep(s, EArrive(b, r)) && Uses(r, key)
    ensures CanBothBeOpen(Step(s, EArrive(b, r)), a, b, key)
  {
    hide StoreKey, Protected, Hash, RunFrom, Inv;
    var s1 := Step(s, EArrive(b, r));
    var s2 := Step(s1, EResumeCache(a));
    var s3 := Step(s2, EResumeCache(b));
    var later := [EResumeCache(a)] + ([EResumeCache(b)] + []);
    RunOne(s1, EResumeCache(a), [EResumeCache(b)] + []);
    RunOne(s2, EResumeCache(b), []);
    RunNone(s3);
    NotClosed(s, a, b);
    assert BothOpenAfter(s1, later, a, b, key);
  }

  lemma NotClosed(s: State, a: nat, b: nat)
    requires Inv(s) && a in s.phase && !s.phase[a].Running? && b !in s.phase
    ensures a !in s.closed && b !in s.closed
  {
    hide StoreKey, Protected, Hash, GoodPhase, GoodInFlight, GoodLogged, InLog;
  }

  /**
   One handler at a time, exactly: two requests share a key, the first has looked it up and found nothing recorded or in
   flight. Whatever else happens until the second arrives, both handlers can then be open at once if and only if the
   first has not gone on to register in the meantime.
   */
  lemma BothOpenIffArrivesBeforeRegistration(s: State, a: nat, b: nat, key: Text, before: seq<Event>, r: Request)
    requires Looked(s, a, b, key) && RunFrom(s, before).Some? && Before(before, b, key)
    requires Uses(r, key) && CanStep(RunFrom(s, before).value, EArrive(b, r))
    ensures CanBothBeOpen(Step(RunFrom(s, before).value, EArrive(b, r)), a, b, key) <==> EResumeCache(a) !in before
  {
    hide Looked, Guarded, Step, CanStep, Uses, CanBothBeOpen, RunFrom;
    LookedOrGuarded(s, before, a, b, key);
    var s1 := RunFrom(s, before).value;
    if EResumeCache(a) in before {
      LateArrivalWaits(s1, r, a, b, key);
    } else {
      EarlyArrivalRuns(s1, r, a, b, key);
    }
  }

  lemma {:induction false} NobodyUses(events: seq<Event>, key: Text)
    requires RunFrom(INIT, events).Some? && NoArrivals(events, key)
    ensures Inv(RunFrom(INIT, events).value)
    ensures forall id :: id in RunFrom(INIT, events).value.req ==> !Uses(RunFrom(INIT, events).value.req[id], key)
  {
    ReachedInv(events);
    StillNobody(INIT, events, key);
  }

  lemma {:induction false} StillNobody(s: State, events: seq<Event>, key: Text)
    requires RunFrom(s, events).Some? && NoArrivals(events, key)
    requires forall id :: id in s.req ==> !Uses(s.req[id], key)
    ensures forall id :: id in RunFrom(s, events).value.req ==> !Uses(RunFrom(s, events).value.req[id], key)
    decreases events
  {
    hide StoreKey, Hash, Protected, AfterSet, AfterFire, Enter, Uses;
    if events != [] {
      assert NoArrival(events[0], key);
      assert forall i :: 0 <= i < |events| - 1 ==> events[1..][i] == events[i + 1];
      StillNobody(Step(s, events[0]), events[1..], key);
    }
  }

  /** The first request under a key looks up a store that holds nothing for it. */
  lemma FirstArrivalLooks(s: State, a: nat, b: nat, r: Request, key: Text)
    requires Inv(s) && (forall id :: id in s.req ==> !Uses(s.req[id], key))
    requires Uses(r, key) && CanStep(s, EArrive(a, r)) && a != b && b !in s.phase && b !in s.req
    ensures Looked(Step(s, EArrive(a, r)), a, b, key)
  {
    hide StoreKey, Protected, Hash, Inv, GoodPhase;
    StepKeepsInv(s, EArrive(a, r));
    NothingThere(s, key);
  }

  lemma RecordedByUser(s: State, key: Text, record: Record)
    requires Inv(s) && InLog(s, key, record)
    ensures exists id :: id in s.req && Uses(s.req[id], key)
  {
    hide StoreKey, Protected, Hash, GoodPhase, GoodInFlight;
    var i :| 0 <= i < |s.log| && s.log[i].key == key && s.log[i].record == record;
    assert GoodLogged(s, s.log[i]);
  }

  lemma NothingThere(s: State, key: Text)
    requires Inv(s) && forall id :: id in s.req ==> !Uses(s.req[id], key)
    ensures key !in s.inFlight && key !in s.store.values
  {
    hide StoreKey, Protected, Hash;
    assert GoodInFlight(s, key);
    assert forall id :: id in s.req && id in s.phase ==> GoodPhase(s, s.req[id], s.phase[id]);
    if key in s.store.values {
      RecordedByUser(s, key, s.store.values[key]);
    }
  }

  /**
   The same for whole runs: the first two requests under a key can both have their handlers open if and only if the
   second arrives before the first has registered.
   */
  lemma TwoRequestsExactly(start: seq<Event>, a: nat, ra: Request, before: seq<Event>, b: nat, rb: Request, key: Text)
    requires Uses(ra, key) && Uses(rb, key) && a != b
    requires RunFrom(INIT, start).Some? && NoArrivals(start, key) && CanStep(RunFrom(INIT, start).value, EArrive(a, ra))
    requires var s := Step(RunFrom(INIT, start).value, EArrive(a, ra));
             && RunFrom(s, before).Some? && Before(before, b, key)
             && CanStep(RunFrom(s, before).value, EArrive(b, rb))
    ensures var s := RunFrom(Step(RunFrom(INIT, start).value, EArrive(a, ra)), before).value;
            CanBothBeOpen(Step(s, EArrive(b, rb)), a, b, key) <==> EResumeCache(a) !in before
  {
    hide Uses, CanBothBeOpen, RunFrom, Inv, Enter, Before, Looked, NoArrivals;
    var s0 := RunFrom(INIT, start).value;
    var s1 := Step(s0, EArrive(a, ra));
    NobodyUses(start, key);
    StepKeepsInv(s0, EArrive(a, ra));
    StepExtends(s0, EArrive(a, ra));
    RunKeepsInv(s1, before);
    assert b !in s1.phase && b !in s1.req;
    FirstArrivalLooks(s0, a, b, ra, key);
    BothOpenIffArrivesBeforeRegistration(s1, a, b, key, before, rb);
  }

  // ---- The same payload ----

  /** The state after `r` has come first, run its handler, and answered 200. */
  function Answered(r: Request, body: Json): State {
    var record := Record(200, body, Hash(r), 0);
    State(map[0 := r], map[0 := Running], map[StoreKey(r) := 0], AfterSet(EmptyStore(), StoreKey(r), record),
          [Logged(0, StoreKey(r), record)], {})
  }

  lemma RunsToAnswer(r: Request, body: Json)
    requires Protected(r)
    ensures RunFrom(INIT, [EArrive(0, r), EResumeCache(0), EJson(0, 200, body)]) == Some(Answered(r, body))
  {
    hide StoreKey, Hash, Protected, RunFrom, AfterSet;
    var e0, e1, e2 := EArrive(0, r), EResumeCache(0), EJson(0, 200, body);
    assert [] + [e0] == [e0] && [e0] + [e1] == [e0, e1] && [e0, e1] + [e2] == [e0, e1, e2];
    RunNone(INIT);
    RunSnoc(INIT, [], e0);
    RunSnoc(INIT, [e0], e1);
    RunSnoc(INIT, [e0, e1], e2);
    assert Step(Step(Step(INIT, e0), e1), e2) == Answered(r, body);
  }

  lemma RecordIsLive(r: Request, body: Json)
    ensures Answered(r, body).store.Lookup(StoreKey(r)) == Some(Record(200, body, Hash(r), 0))
  {
    hide StoreKey, Hash;
  }

  /** The replay after an in-flight wait has no hash check: a different payload under the same key is replayed. */
  lemma FirstLookupIgnoresPayload(r: Request, q: Request, body: Json) returns (events: seq<Event>)
    requires Protected(r) && Protected(q) && StoreKey(r) == StoreKey(q) && !SamePayload(r, q)
    ensures RunFrom(INIT, events).Some?
    ensures ReplayedOther(RunFrom(INIT, events).value, r, q, FirstLookup)
  {
    hide StoreKey, Hash, Protected, RunFrom, AfterSet, SamePayload;
    events := [EArrive(0, r), EResumeCache(0), EJson(0, 200, body)];
    RunsToAnswer(r, body);
    RecordIsLive(r, body);
    events := ThenStep(events, EArrive(1, q));
    events := ThenStep(events, EClose(0));
    events := ThenStep(events, EFinalized(0));
    events := ThenStep(events, EWake(1));
    events := ThenStep(events, EResumeReplay(1));
    assert ReplayedTo(RunFrom(INIT, events).value, 1, r, q, FirstLookup);
  }

  /** A run with one more step. */
  lemma ThenStep(events: seq<Event>, e: Event) returns (more: seq<Event>)
    requires RunFrom(INIT, events).Some? && CanStep(RunFrom(INIT, events).value, e)
    ensures RunFrom(INIT, more) == Some(Step(RunFrom(INIT, events).value, e))
  {
    more := events + [e];
    RunSnoc(INIT, events, e);
  }

  /** The second lookup replays a different payload on the two client paths. */
  lemma ClientPathIgnoresPayload(r: Request, q: Request, body: Json) returns (events: seq<Event>)
    requires Protected(r) && Protected(q) && StoreKey(r) == StoreKey(q) && !SamePayload(r, q)
    requires OnClientPath(q)
    ensures RunFrom(INIT, events).Some?
    ensures ReplayedOther(RunFrom(INIT, events).value, r, q, SecondLookup)
  {
    hide StoreKey, Hash, Protected, RunFrom, AfterSet, AllowReplayOnHashMismatch, SamePayload, OnClientPath;
    ClientPaths(q);
    events := [EArrive(0, r), EResumeCache(0), EJson(0, 200, body)];
    RunsToAnswer(r, body);
    RecordIsLive(r, body);
    events := ThenStep(events, EClose(0));
    events := ThenStep(events, EFinalized(0));
    events := ThenStep(events, EArrive(1, q));
    events := ThenStep(events, EResumeCache(1));
    assert ReplayedTo(RunFrom(INIT, events).value, 1, r, q, SecondLookup);
  }

  ghost predicate ReplayedTo(s: State, id: nat, r: Request, q: Request, via: Via) {
    && id in s.req && id in s.phase && s.req[id] == q
    && s.phase[id].Replayed? && s.phase[id].via == via && s.phase[id].record.requestHash == Hash(r)
  }

  /** Request `q` has been answered with a record that payload `r` left. */
  ghost predicate ReplayedOther(s: State, r: Request, q: Request, via: Via) {
    exists id :: ReplayedTo(s, id, r, q, via)
  }

  ghost predicate CanReplayOther(r: Request, q: Request, via: Via) {
    exists events :: RunFrom(INIT, events).Some? && ReplayedOther(RunFrom(INIT, events).value, r, q, via)
  }

  /**
   A replay answers the same payload, exactly: of two protected requests with one store key and different payloads, one
   can be answered with what the other left if and only if that happens through the lookup after a wait, or on one of
   the two client paths.
   */
  lemma OtherPayloadReplayedIff(r: Request, q: Request, via: Via)
    requires Protected(r) && Protected(q) && StoreKey(r) == StoreKey(q) && !SamePayload(r, q)
    ensures CanReplayOther(r, q, via) <==> via.FirstLookup? || OnClientPath(q)
  {
    hide StoreKey, Hash, Protected, RunFrom, OnClientPath, SamePayload, ReplayedOther;
    if via.FirstLookup? {
      var events := FirstLookupIgnoresPayload(r, q, Null);
    } else if OnClientPath(q) {
      var events := ClientPathIgnoresPayload(r, q, Null);
    } else {
      forall events | RunFrom(INIT, events).Some?
        ensures !ReplayedOther(RunFrom(INIT, events).value, r, q, via)
      {
        ReachedInv(events);
        SecondLookupAnswersOwnPayload(RunFrom(INIT, events).value, r, q);
      }
    }
  }

  lemma SecondLookupAnswersOwnPayload(s: State, r: Request, q: Request)
    requires Inv(s) && Protected(r) && Protected(q) && !SamePayload(r, q) && !OnClientPath(q)
    ensures !ReplayedOther(s, r, q, SecondLookup)
  {
    hide StoreKey, Hash, Protected, AllowReplayOnHashMismatch, GoodInFlight, GoodLogged, SamePayload, OnClientPath;
    HashInjective(r, q);
    ClientPaths(q);
    forall id
      ensures !ReplayedTo(s, id, r, q, SecondLookup)
    {
      assert id in s.req && id in s.phase ==> GoodPhase(s, s.req[id], s.phase[id]);
    }
  }
}
