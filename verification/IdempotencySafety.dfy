/** What the idempotency middleware promises in every interleaving of its steps. */
module IdempotencySafety {
  import opened Options
  import opened Json
  import opened JsonEquality
  import opened Fingerprint
  import opened IdempotencyStore
  import opened IdempotencyProtocol

  // ---- What a replay is ----

  /**
   What a request was answered with has been recorded before, by a handler run for the same user under the same store
   key.
   */
  ghost predicate Provenance(s: State, r: Request, record: Record, via: Via) {
    exists i :: 0 <= i < |s.log| && FromHandler(s, s.log[i], r, record, via)
  }

  ghost predicate FromHandler(s: State, l: Logged, r: Request, record: Record, via: Via) {
    && l.record == record && record.statusCode < 500
    && l.author in s.phase && s.phase[l.author].Running? && l.author in s.req
    && var q := s.req[l.author];
       && StoreKey(q) == StoreKey(r)
       && (NoColon(q.user) && NoColon(r.user) ==> SameUser(q, r))
       && (via.SecondLookup? && !OnClientPath(r) ==> SamePayload(q, r))
  }

  lemma ReplayIsRecorded(s: State, id: nat)
    requires Inv(s) && id in s.phase && id in s.req && s.phase[id].Replayed?
    ensures Provenance(s, s.req[id], s.phase[id].record, s.phase[id].via)
  {
    hide StoreKey, Hash, Protected, AllowReplayOnHashMismatch, SamePayload, SameUser, OnClientPath, NoColon,
      GoodInFlight;
    var r, record := s.req[id], s.phase[id].record;
    assert GoodPhase(s, r, s.phase[id]);
    var i :| 0 <= i < |s.log| && s.log[i].key == StoreKey(r) && s.log[i].record == record;
    assert GoodLogged(s, s.log[i]);
    var q := s.req[s.log[i].author];
    HashInjective(q, r);
    ClientPaths(r);
    if NoColon(q.user) && NoColon(r.user) {
      StoreKeysAgreeIff(q, r);
    }
    assert FromHandler(s, s.log[i], r, record, s.phase[id].via);
  }

  /**
   In every interleaving: at the step that replays a response, it is already in the log, put there by a handler
   run for the same user under the same store key with a status below 500; through the second lookup, and off the two
   client paths, that was the same method, path and body.
   */
  lemma ReplayProvenance(events: seq<Event>, e: Event, id: nat)
    requires RunFrom(INIT, events).Some? && CanStep(RunFrom(INIT, events).value, e)
    requires var s, s' := RunFrom(INIT, events).value, Step(RunFrom(INIT, events).value, e);
             && id in s.phase && id in s.req && !s.phase[id].Replayed? && id in s'.phase && s'.phase[id].Replayed?
    ensures var s, s' := RunFrom(INIT, events).value, Step(RunFrom(INIT, events).value, e);
            Provenance(s, s.req[id], s'.phase[id].record, s'.phase[id].via)
  {
    hide StoreKey, Hash, Protected, AllowReplayOnHashMismatch, Inv, FromHandler;
    ReachedInv(events);
    var s := RunFrom(INIT, events).value;
    var s' := Step(s, e);
    StepKeepsInv(s, e);
    assert s'.log == s.log && s'.req == s.req;
    ReplayIsRecorded(s', id);
    var i :| 0 <= i < |s'.log| && FromHandler(s', s'.log[i], s.req[id], s'.phase[id].record, s'.phase[id].via);
    assert FromHandler(s, s.log[i], s.req[id], s'.phase[id].record, s'.phase[id].via) by {
      SameAuthor(s, s', s.log[i], id, e, s.req[id], s'.phase[id].record, s'.phase[id].via);
    }
  }

  lemma SameAuthor(s: State, s': State, l: Logged, id: nat, e: Event, r: Request, record: Record, via: Via)
    requires CanStep(s, e) && s' == Step(s, e) && id in s.phase && id in s'.phase && s'.phase[id].Replayed?
    requires !s.phase[id].Replayed? && FromHandler(s', l, r, record, via)
    ensures FromHandler(s, l, r, record, via)
  {
    hide StoreKey, Hash, Protected, AllowReplayOnHashMismatch, SamePayload, SameUser, OnClientPath, NoColon;
    assert e.EResumeReplay? || e.EResumeCache?;
    assert s'.phase == s.phase[id := s'.phase[id]] && l.author != id;
  }

  // ---- Who runs and who does not ----

  /** A lookup found a record, or what follows from that. */
  predicate Settled(p: Phase) {
    match p
    case ReplayLooked(found) => found.Some?
    case CacheLooked(found) => found.Some?
    case Replayed(_, _) => true
    case Conflict(_) => true
    case _ => false
  }

  lemma {:induction false} SettledStays(s: State, events: seq<Event>, id: nat)
    requires RunFrom(s, events).Some? && id in s.phase && Settled(s.phase[id])
    ensures id in RunFrom(s, events).value.phase && Settled(RunFrom(s, events).value.phase[id])
    decreases events
  {
    hide StoreKey, Hash, Protected, AfterSet, AfterFire, Enter;
    if events != [] {
      SettledStays(Step(s, events[0]), events[1..], id);
    }
  }

  /** The store key that a step looks up for request `id`. */
  predicate LooksUp(s: State, e: Event, id: nat, key: Text) {
    match e
    case EArrive(i, r) => i == id && Protected(r) && key == StoreKey(r) && key !in s.inFlight
    case EWake(i) => i == id && id in s.req && key == StoreKey(s.req[id])
    case EResumeReplay(i) =>
      i == id && id in s.req && key == StoreKey(s.req[id]) && id in s.phase && s.phase[id] == ReplayLooked(None)
    case _ => false
  }

  /** A request whose lookup starts while a record is live for its key never runs its handler. */
  lemma LiveRecordNeverRuns(s: State, e: Event, id: nat, key: Text, later: seq<Event>)
    requires CanStep(s, e) && LooksUp(s, e, id, key) && key in s.store.values
    requires RunFrom(Step(s, e), later).Some?
    ensures var p := RunFrom(Step(s, e), later).value.phase;
            id in p && (p[id].Replayed? || p[id].Conflict? || p[id].ReplayLooked? || p[id].CacheLooked?)
  {
    hide StoreKey, Hash, Protected, RunFrom;
    SettledStays(Step(s, e), later, id);
  }

  /** A 409 is final: the handler of that request never runs and nothing is ever recorded on its behalf. */
  lemma ConflictRunsNothing(events: seq<Event>, id: nat, later: seq<Event>)
    requires RunFrom(INIT, events).Some? && RunFrom(RunFrom(INIT, events).value, later).Some?
    requires var s := RunFrom(INIT, events).value; id in s.phase && s.phase[id].Conflict?
    ensures var s' := RunFrom(RunFrom(INIT, events).value, later).value;
            && id in s'.phase && !s'.phase[id].Running?
            && forall i :: 0 <= i < |s'.log| ==> s'.log[i].author != id
  {
    hide StoreKey, Hash, Protected, RunFrom, GoodInFlight, GoodPhase;
    var s := RunFrom(INIT, events).value;
    ReachedInv(events);
    RunKeepsInv(s, later);
    SettledStays(s, later, id);
    var s' := RunFrom(s, later).value;
    forall i | 0 <= i < |s'.log|
      ensures s'.log[i].author != id
    {
      assert GoodLogged(s', s'.log[i]);
    }
  }

  /** A conflict means a record under the same key that some other payload left. */
  lemma ConflictHasOtherPayload(events: seq<Event>, id: nat)
    requires RunFrom(INIT, events).Some?
    requires var s := RunFrom(INIT, events).value; id in s.phase && s.phase[id].Conflict?
    ensures var s := RunFrom(INIT, events).value;
            exists q :: q in s.req && s.phase.Keys == s.req.Keys && id in s.req && s.phase[q].Running?
                     && StoreKey(s.req[q]) == StoreKey(s.req[id]) && !SamePayload(s.req[q], s.req[id])
  {
    hide StoreKey, Hash, Protected, RunFrom, GoodInFlight, AllowReplayOnHashMismatch, SamePayload;
    ReachedInv(events);
    var s := RunFrom(INIT, events).value;
    assert GoodPhase(s, s.req[id], s.phase[id]);
    var i :| 0 <= i < |s.log| && s.log[i].key == StoreKey(s.req[id]) && s.log[i].record == s.phase[id].record;
    assert GoodLogged(s, s.log[i]);
    HashInjective(s.req[s.log[i].author], s.req[id]);
  }

  /**
   What a request does whose lookup has found a record: `q` has left it, and the answer is a 409 exactly when its
   payload was another and the path is none of the two client paths; otherwise it is that record.
   */
  lemma FoundRecordDecides(events: seq<Event>, id: nat) returns (q: nat)
    requires RunFrom(INIT, events).Some?
    requires var s := RunFrom(INIT, events).value;
             && id in s.req && id in s.phase && s.phase[id].CacheLooked? && s.phase[id].found.Some?
    ensures var s := RunFrom(INIT, events).value;
            var record, p := s.phase[id].found.value, Step(s, EResumeCache(id)).phase[id];
            && q in s.req && q in s.phase && s.phase[q].Running? && StoreKey(s.req[q]) == StoreKey(s.req[id])
            && p == if SamePayload(s.req[q], s.req[id]) || OnClientPath(s.req[id]) then Replayed(record, SecondLookup)
                    else Conflict(record)
  {
    hide StoreKey, Hash, Protected, RunFrom, GoodInFlight, AllowReplayOnHashMismatch, SamePayload, OnClientPath;
    ReachedInv(events);
    var s := RunFrom(INIT, events).value;
    assert GoodPhase(s, s.req[id], s.phase[id]);
    var record := s.phase[id].found.value;
    var i :| 0 <= i < |s.log| && s.log[i].key == StoreKey(s.req[id]) && s.log[i].record == record;
    assert GoodLogged(s, s.log[i]);
    q := s.log[i].author;
    HashInjective(s.req[q], s.req[id]);
    ClientPaths(s.req[id]);
  }

  /** A lookup that found nothing leads to the handler, registered as in flight under its key. */
  lemma NothingFoundRuns(s: State, id: nat)
    requires CanStep(s, EResumeCache(id)) && s.phase[id] == CacheLooked(None)
    ensures var s' := Step(s, EResumeCache(id));
            && s'.phase == s.phase[id := Running]
            && s'.inFlight == s.inFlight[StoreKey(s.req[id]) := id] && s'.store == s.store
  {
  }

  /** Once a response has been finalized its key is free: whoever comes next looks up the store. */
  lemma FinalizedFrees(s: State, id: nat, next: nat, r: Request)
    requires CanStep(s, EFinalized(id)) && CanStep(Step(s, EFinalized(id)), EArrive(next, r))
    requires Protected(r) && StoreKey(r) == StoreKey(s.req[id])
    ensures var s' := Step(s, EFinalized(id));
            && (forall key :: key != StoreKey(r) && key in s.inFlight ==>
                  key in s'.inFlight && s'.inFlight[key] == s.inFlight[key])
            && Step(s', EArrive(next, r)).phase[next] == CacheLooked(s.store.Lookup(StoreKey(r)))
  {
    hide StoreKey, Protected;
  }

  /** A request goes unprotected exactly when its method is none of the three or it has no key. */
  lemma BypassIsExact(events: seq<Event>, e: Event)
    requires RunFrom(INIT, events).Some? && e.EArrive? && CanStep(RunFrom(INIT, events).value, e)
    ensures Step(RunFrom(INIT, events).value, e).phase[e.id].Bypassed? <==>
            e.r.key == [] || !(Spells(e.r.verb, "POST") || Spells(e.r.verb, "PATCH") || Spells(e.r.verb, "DELETE"))
  {
    hide RunFrom, Protected, StoreKey;
    ProtectedMeans(e.r);
  }

  /** A request that found an in-flight entry stays put until that response has finished or closed. */
  lemma {:induction false} WaiterIsHeld(s: State, events: seq<Event>, id: nat)
    requires RunFrom(s, events).Some? && id in s.phase && s.phase[id].Waiting?
    ensures var s' := RunFrom(s, events).value;
            id in s'.phase && (s'.phase[id] == s.phase[id] || s.phase[id].on in s'.closed)
    decreases events
  {
    hide StoreKey, Hash, Protected, AfterSet, AfterFire, Enter;
    if events != [] {
      var s1 := Step(s, events[0]);
      if s1.phase[id] == s.phase[id] {
        WaiterIsHeld(s1, events[1..], id);
      } else {
        assert s.phase[id].on in s1.closed;
        ClosedStays(s1, events[1..], s.phase[id].on, id);
      }
    }
  }

  lemma {:induction false} ClosedStays(s: State, events: seq<Event>, on: nat, id: nat)
    requires RunFrom(s, events).Some? && on in s.closed && id in s.phase
    ensures on in RunFrom(s, events).value.closed && id in RunFrom(s, events).value.phase
    decreases events
  {
    hide StoreKey, Hash, Protected, AfterSet, AfterFire, Enter;
    if events != [] {
      ClosedStays(Step(s, events[0]), events[1..], on, id);
    }
  }

  /**
   A waiter that wakes while a record is live for its key replays that record and nothing else, whatever happens to
   the store in between.
   */
  lemma WaiterReplays(s: State, id: nat, later: seq<Event>)
    requires CanStep(s, EWake(id)) && StoreKey(s.req[id]) in s.store.values
    requires RunFrom(Step(s, EWake(id)), later).Some?
    ensures var record := s.store.values[StoreKey(s.req[id])];
            var p := RunFrom(Step(s, EWake(id)), later).value.phase;
            id in p && (p[id] == ReplayLooked(Some(record)) || p[id] == Replayed(record, FirstLookup))
  {
    hide StoreKey, Hash, Protected, RunFrom;
    FirstReplayStays(Step(s, EWake(id)), later, id, s.store.values[StoreKey(s.req[id])]);
  }

  lemma {:induction false} FirstReplayStays(s: State, events: seq<Event>, id: nat, record: Record)
    requires RunFrom(s, events).Some? && id in s.phase
    requires s.phase[id] == ReplayLooked(Some(record)) || s.phase[id] == Replayed(record, FirstLookup)
    ensures var p := RunFrom(s, events).value.phase;
            id in p && (p[id] == ReplayLooked(Some(record)) || p[id] == Replayed(record, FirstLookup))
    decreases events
  {
    hide StoreKey, Hash, Protected, AfterSet, AfterFire, Enter;
    if events != [] {
      FirstReplayStays(Step(s, events[0]), events[1..], id, record);
    }
  }

  // ---- The store under the protocol ----

  /** The store of a protocol run is one that `set`s under nonempty keys, ticks and timers produce. */
  lemma {:induction false} StoreOps(s: State, events: seq<Event>, ops: seq<Op<Record>>) returns (more: seq<Op<Record>>)
    requires RunFrom(s, events).Some? && Run(ops) == Some(s.store)
    requires forall i :: 0 <= i < |ops| && ops[i].Set? ==> ops[i].key != []
    ensures Run(more) == Some(RunFrom(s, events).value.store)
    ensures forall i :: 0 <= i < |more| && more[i].Set? ==> more[i].key != []
    decreases events
  {
    hide Hash, Protected, AfterSet, AfterFire, Enter, Run;
    if events == [] {
      more := ops;
    } else {
      var s' := Step(s, events[0]);
      var op := match events[0]
        case EJson(id, statusCode, body) =>
          if statusCode < 500 then Set(StoreKey(s.req[id]), Record(statusCode, body, Hash(s.req[id]), s.store.now))
          else Tick(0)
        case ETick(elapsed) => Tick(elapsed)
        case EFire(i) => Fire(i)
        case _ => Tick(0);
      var ops' := ops + [op];
      assert ops'[..|ops'| - 1] == ops;
      RunLast(ops');
      more := StoreOps(s', events[1..], ops');
    }
  }

  /** In every interleaving the store holds at most 1000 records, and none past its hour while timers fire on time. */
  lemma StoreStaysSmallAndFresh(events: seq<Event>)
    requires RunFrom(INIT, events).Some?
    ensures var store := RunFrom(INIT, events).value.store;
            && |store.order| <= 1000
            && forall key :: key in store.values ==>
                 exists t :: t in store.timers && t.key == key && t.due <= store.now + 3_600_000
  {
    hide RunFrom, Run;
    RunNothing<Record>();
    var ops := StoreOps(INIT, events, []);
    StoreIsBounded(ops);
    StoreInvariant(ops);
    var store := RunFrom(INIT, events).value.store;
    forall key | key in store.values
      ensures exists t :: t in store.timers && t.key == key && t.due <= store.now + 3_600_000
    {
      assert LiveIsLast(ops, store, key);
      LastSetInPast(ops, key);
    }
  }

  lemma StoreIsValid(events: seq<Event>)
    requires RunFrom(INIT, events).Some?
    ensures var store := RunFrom(INIT, events).value.store;
            Valid(store) && |store.order| <= MEMORY_STORE_MAX_ITEMS
  {
    hide RunFrom, Run;
    RunNothing<Record>();
    var ops := StoreOps(INIT, events, []);
    StoreIsBounded(ops);
    StoreInvariant(ops);
  }

  /**
   What a handler passes to `res.json` with a status below 500 is at once what a lookup of its key finds; anything else
   leaves the store alone.
   */
  lemma JsonIsRecorded(events: seq<Event>, id: nat, statusCode: int, body: Json)
    requires RunFrom(INIT, events).Some? && CanStep(RunFrom(INIT, events).value, EJson(id, statusCode, body))
    ensures var s, s' := RunFrom(INIT, events).value, Step(RunFrom(INIT, events).value, EJson(id, statusCode, body));
            if statusCode < 500
            then s'.store.Lookup(StoreKey(s.req[id])) == Some(Record(statusCode, body, Hash(s.req[id]), s.store.now))
            else s'.store == s.store
  {
    hide RunFrom, AfterSet, Valid, StoreKey, Hash;
    StoreIsValid(events);
    var s := RunFrom(INIT, events).value;
    EvictionIsFifo(s.store, StoreKey(s.req[id]), Record(statusCode, body, Hash(s.req[id]), s.store.now));
  }

  lemma {:induction false} LastSetInPast<V>(ops: seq<Op<V>>, key: Text)
    requires LastSet(ops, key).Some?
    ensures LastSet(ops, key).value.at <= Clock(ops)
  {
    var before := ops[..|ops| - 1];
    if !(ops[|ops| - 1].Set? && ops[|ops| - 1].key == key) {
      LastSetInPast(before, key);
    }
  }
}
