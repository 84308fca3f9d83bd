/**
 The idempotency middleware of src/platform/idempotency.ts as interleaved steps. A step is the code between two
 `await`s: with the memory store a lookup is made when `fetchStoredResponse` is called, and the caller goes on with
 its result at a later step. SHA-256 is taken to be collision-free.

 A step of the model may happen later, and more often, than in the source: the `finally` callback of a closed response
 runs once there, ahead of whoever waits for it, and here at any time and any number of times. What holds of all these
 interleavings holds of the source's.
 */
module IdempotencyProtocol {
  import opened Options
  import opened Json
  import opened JsonEquality
  import opened Fingerprint
  import opened IdempotencyStore

  datatype Digest = Sha256(preimage: Text)

  /** What `express.json()` leaves in `req.body`. */
  type Body = b: Json | WellFormed(b) witness Null

  /** `storePath` is `normalizePath(req)`, `key` the trimmed header (empty when missing), `user` empty for anonymous. */
  datatype Request = Request(verb: Text, path: Text, storePath: Text, user: Text, key: Text, body: Body)

  datatype Record = Record(statusCode: int, body: Json, requestHash: Digest, storedAt: nat)

  const POST: Text := Units("POST")
  const PATCH: Text := Units("PATCH")
  const DELETE: Text := Units("DELETE")
  const STORE_PREFIX: Text := Units("idemp:")
  const ANONYMOUS: Text := Units("anon")
  const SUBMISSIONS_PATH: Text := Units("/api/client/submissions")
  const DOCUMENTS_PATH: Text := Units("/api/client/documents")

  function UpperUnit(u: Unit): Unit {
    if 97 <= u <= 122 then u - 32 else u
  }

  function UpperText(t: Text): (r: Text)
    ensures |r| == |t| && forall i :: 0 <= i < |t| ==> r[i] == UpperUnit(t[i])
  {
    seq(|t|, i requires 0 <= i < |t| => UpperUnit(t[i]))
  }

  /** An enforced method with an idempotency key. */
  predicate Protected(r: Request) {
    var verb := UpperText(r.verb);
    (verb == POST || verb == PATCH || verb == DELETE) && r.key != []
  }

  function StoreKey(r: Request): (k: Text)
    ensures k != []
  {
    STORE_PREFIX + (if r.user == [] then ANONYMOUS else r.user) + [COLON] + r.storePath + [COLON] + r.key
  }

  function Hash(r: Request): Digest {
    Sha256(Payload(r.verb, r.path, r.body))
  }

  predicate AllowReplayOnHashMismatch(r: Request) {
    r.storePath == SUBMISSIONS_PATH || r.storePath == DOCUMENTS_PATH
  }

  predicate SamePayload(r: Request, q: Request) {
    r.verb == q.verb && r.path == q.path && SameBody(r.body, q.body)
  }

  /** Equal hashes mean the same method, path and body. */
  lemma HashInjective(r: Request, q: Request)
    requires Protected(r) && Protected(q)
    ensures Hash(r) == Hash(q) <==> SamePayload(r, q)
  {
    hide SameBody, Payload, Protected;
    VerbHasNoColon(r);
    VerbHasNoColon(q);
    PayloadsAgreeIff(r.verb, r.path, r.body, q.verb, q.path, q.body);
  }

  lemma VerbHasNoColon(r: Request)
    requires Protected(r)
    ensures NoColon(r.verb)
  {
    var verb := UpperText(r.verb);
    assert forall k :: 0 <= k < |verb| ==> verb[k] != COLON;
    forall k | 0 <= k < |r.verb|
      ensures r.verb[k] != COLON
    {
      assert verb[k] == UpperUnit(r.verb[k]);
    }
  }

  // ---- What the keys, the methods and the client paths are ----

  /** No user, or one whose id reads like none. */
  predicate Anonymous(user: Text) {
    user == [] || user == Units("anon")
  }

  predicate SameUser(r: Request, q: Request) {
    r.user == q.user || (Anonymous(r.user) && Anonymous(q.user))
  }

  lemma PrefixCancels(p: Text, a: Text, b: Text)
    ensures p + a == p + b <==> a == b
  {
    assert (p + a)[|p|..] == a && (p + b)[|p|..] == b;
  }

  lemma SuffixCancels(a: Text, b: Text, p: Text)
    ensures a + p == b + p <==> a == b
  {
    if a + p == b + p {
      assert |a + p| == |b + p|;
      assert (a + p)[..|a|] == a && (b + p)[..|b|] == b;
    }
  }

  /** For user ids without a colon, keys agree exactly when the users do and the path and the header key together do. */
  lemma StoreKeysAgreeIff(r: Request, q: Request)
    requires NoColon(r.user) && NoColon(q.user)
    ensures StoreKey(r) == StoreKey(q) <==>
            SameUser(r, q) && r.storePath + [COLON] + r.key == q.storePath + [COLON] + q.key
  {
    var a := if r.user == [] then ANONYMOUS else r.user;
    var b := if q.user == [] then ANONYMOUS else q.user;
    var x, y := r.storePath + [COLON] + r.key, q.storePath + [COLON] + q.key;
    assert NoColon(ANONYMOUS);
    assert StoreKey(r) == STORE_PREFIX + (a + [COLON] + x) && StoreKey(q) == STORE_PREFIX + (b + [COLON] + y);
    PrefixCancels(STORE_PREFIX, a + [COLON] + x, b + [COLON] + y);
    if a + [COLON] + x == b + [COLON] + y {
      VerbFirst(a, x, b, y);
    }
  }

  /** For one user and one path the header keys decide, for one user and one header key the paths. */
  lemma StoreKeyParts(r: Request, q: Request)
    requires NoColon(r.user) && NoColon(q.user) && SameUser(r, q)
    ensures r.storePath == q.storePath ==> (StoreKey(r) == StoreKey(q) <==> r.key == q.key)
    ensures r.key == q.key ==> (StoreKey(r) == StoreKey(q) <==> r.storePath == q.storePath)
    ensures NoColon(r.storePath) && NoColon(q.storePath) ==>
              (StoreKey(r) == StoreKey(q) <==> r.storePath == q.storePath && r.key == q.key)
  {
    hide StoreKey, SameUser;
    StoreKeysAgreeIff(r, q);
    PrefixCancels(r.storePath + [COLON], r.key, q.key);
    SuffixCancels(r.storePath, q.storePath, [COLON] + r.key);
    assert r.storePath + ([COLON] + r.key) == r.storePath + [COLON] + r.key;
    assert q.storePath + ([COLON] + r.key) == q.storePath + [COLON] + r.key;
    if NoColon(r.storePath) && NoColon(q.storePath) && StoreKey(r) == StoreKey(q) {
      VerbFirst(r.storePath, r.key, q.storePath, q.key);
    }
  }

  /** A colon can belong to the path or to the header key: such requests share a key. */
  lemma PathAndKeyRunTogether(r: Request, path: Text, tail: Text, key: Text)
    requires r.storePath == path + [COLON] + tail && r.key == key
    ensures StoreKey(r) == StoreKey(r.(storePath := path, key := tail + [COLON] + key))
  {
    hide STORE_PREFIX;
    var q := r.(storePath := path, key := tail + [COLON] + key);
    assert r.storePath + [COLON] + r.key == q.storePath + [COLON] + q.key;
    var u := STORE_PREFIX + (if r.user == [] then ANONYMOUS else r.user) + [COLON];
    assert StoreKey(r) == u + (r.storePath + [COLON] + r.key) && StoreKey(q) == u + (q.storePath + [COLON] + q.key);
  }

  /** Letter by letter equal, where `b` may be in lower case. */
  predicate Spells(b: Text, name: string) {
    |b| == |name| && forall i :: 0 <= i < |b| ==> b[i] == name[i] as int || b[i] == name[i] as int + 32
  }

  /** Exactly POST, PATCH and DELETE, however written, are protected, and only with a key. */
  lemma ProtectedMeans(r: Request)
    ensures Protected(r) <==>
            r.key != [] && (Spells(r.verb, "POST") || Spells(r.verb, "PATCH") || Spells(r.verb, "DELETE"))
  {
    SpellsUpper(r.verb, "POST");
    SpellsUpper(r.verb, "PATCH");
    SpellsUpper(r.verb, "DELETE");
  }

  lemma SpellsUpper(b: Text, name: string)
    requires forall i :: 0 <= i < |name| ==> 'A' <= name[i] <= 'Z'
    ensures Spells(b, name) <==> UpperText(b) == Units(name)
  {
    var u := UpperText(b);
    if u == Units(name) {
      forall i | 0 <= i < |b|
        ensures b[i] == name[i] as int || b[i] == name[i] as int + 32
      {
        assert u[i] == name[i] as int;
      }
    }
  }

  predicate OnClientPath(r: Request) {
    r.storePath == Units("/api/client/submissions") || r.storePath == Units("/api/client/documents")
  }

  lemma ClientPaths(r: Request)
    ensures AllowReplayOnHashMismatch(r) <==> OnClientPath(r)
  {
  }

  // ---- What a request is waiting for ----

  datatype Via = FirstLookup | SecondLookup

  datatype Phase =
    | Bypassed                                 // `next()` without protection
    | Waiting(on: nat)                         // awaiting the in-flight promise of that request
    | ReplayLooked(found: Option<Record>)      // awaiting the lookup after the wait
    | CacheLooked(found: Option<Record>)       // awaiting the lookup that everyone makes
    | Running                                  // registered, `res.json` hooked, handler called
    | Replayed(record: Record, via: Via)
    | Conflict(record: Record)                 // answered 409

  /** From the top of the middleware to its first `await`. */
  function Enter(inFlight: map<Text, nat>, store: Store<Record>, r: Request): Phase {
    if !Protected(r) then Bypassed
    else if StoreKey(r) in inFlight then Waiting(inFlight[StoreKey(r)])
    else CacheLooked(store.Lookup(StoreKey(r)))
  }

  function AfterReplayLookup(store: Store<Record>, r: Request, found: Option<Record>): Phase {
    match found
    case Some(record) => Replayed(record, FirstLookup)
    case None => CacheLooked(store.Lookup(StoreKey(r)))
  }

  function AfterCacheLookup(r: Request, found: Option<Record>): Phase {
    match found
    case None => Running
    case Some(record) =>
      if record.requestHash != Hash(r) && !AllowReplayOnHashMismatch(r) then Conflict(record)
      else Replayed(record, SecondLookup)
  }

  /** The module-level `inFlightRequests` and the code of the middleware between its `await`s. */
  class Middleware {
    var inFlight: map<Text, nat>
    const store: MemoryStore<Record>

    constructor (store: MemoryStore<Record>)
      ensures inFlight == map[] && this.store == store
    {
      this.inFlight, this.store := map[], store;
    }

    /** Up to the first `await`. */
    method Arrive(r: Request) returns (p: Phase)
      ensures p == Enter(inFlight, store.State(), r)
    {
      var verb := UpperText(r.verb);
      if verb != POST && verb != PATCH && verb != DELETE {
        return Bypassed;
      }
      if r.key == [] {
        return Bypassed;
      }
      var storeKey := StoreKey(r);
      if storeKey in inFlight {
        return Waiting(inFlight[storeKey]);
      }
      var found := store.MemoryFallbackGet(storeKey);
      return CacheLooked(found);
    }

    /** Once the in-flight response has finished or closed. */
    method Wake(r: Request) returns (p: Phase)
      ensures p == ReplayLooked(store.State().Lookup(StoreKey(r)))
    {
      var found := store.MemoryFallbackGet(StoreKey(r));
      return ReplayLooked(found);
    }

    /** With the result of the lookup after the wait. */
    method ResumeReplay(r: Request, replay: Option<Record>) returns (p: Phase)
      ensures p == AfterReplayLookup(store.State(), r, replay)
    {
      if replay.Some? {
        return Replayed(replay.value, FirstLookup);
      }
      var found := store.MemoryFallbackGet(StoreKey(r));
      return CacheLooked(found);
    }

    /** With the result of the other lookup: replay, conflict, or registration and `next()`. */
    method ResumeCache(id: nat, r: Request, cached: Option<Record>) returns (p: Phase)
      modifies this`inFlight
      ensures p == AfterCacheLookup(r, cached)
      ensures inFlight == if p.Running? then old(inFlight)[StoreKey(r) := id] else old(inFlight)
    {
      if cached.Some? {
        if cached.value.requestHash != Hash(r) {
          if !AllowReplayOnHashMismatch(r) {
            return Conflict(cached.value);
          }
        }
        return Replayed(cached.value, SecondLookup);
      }
      inFlight := inFlight[StoreKey(r) := id];
      return Running;
    }

    /** The hooked `res.json`. */
    method OnJson(r: Request, statusCode: int, body: Json)
      requires Valid(store.State())
      modifies store
      ensures Valid(store.State())
      ensures store.State() == if statusCode < 500
                               then AfterSet(old(store.State()), StoreKey(r),
                                             Record(statusCode, body, Hash(r), old(store.now)))
                               else old(store.State())
    {
      if statusCode < 500 {
        store.MemoryFallbackSet(StoreKey(r), Record(statusCode, body, Hash(r), store.now));
      }
    }

    /** `finalize.finally`: the entry goes by key, whoever holds it now. */
    method OnFinalized(r: Request)
      modifies this`inFlight
      ensures inFlight == old(inFlight) - {StoreKey(r)}
    {
      inFlight := inFlight - {StoreKey(r)};
    }
  }

  // ---- Interleaved runs ----

  /** What a handler passed to `res.json` with a status below 500. */
  datatype Logged = Logged(author: nat, key: Text, record: Record)

  datatype State = State(req: map<nat, Request>, phase: map<nat, Phase>, inFlight: map<Text, nat>,
                         store: Store<Record>, log: seq<Logged>, closed: set<nat>)

  const INIT := State(map[], map[], map[], EmptyStore(), [], {})

  datatype Event =
    | EArrive(id: nat, r: Request)
    | EWake(id: nat)
    | EResumeReplay(id: nat)
    | EResumeCache(id: nat)
    | EJson(id: nat, statusCode: int, body: Json)   // the handler calls `res.json`
    | EClose(id: nat)                               // `finish` or `close` of the response
    | EFinalized(id: nat)                           // its `finally` callback
    | ETick(elapsed: nat)
    | EFire(timer: nat)                             // a deletion timer of the store

  predicate CanStep(s: State, e: Event) {
    match e
    case EArrive(id, r) => id !in s.phase && id !in s.req
    case EWake(id) => id in s.req && id in s.phase && s.phase[id].Waiting? && s.phase[id].on in s.closed
    case EResumeReplay(id) => id in s.req && id in s.phase && s.phase[id].ReplayLooked?
    case EResumeCache(id) => id in s.req && id in s.phase && s.phase[id].CacheLooked?
    case EJson(id, _, _) => id in s.req && id in s.phase && s.phase[id].Running?
    case EClose(id) => id in s.req && id in s.phase && s.phase[id].Running?
    case EFinalized(id) => id in s.req && id in s.closed
    case ETick(_) => true
    case EFire(i) => CanFire(s.store, i)
  }

  function Step(s: State, e: Event): State
    requires CanStep(s, e)
  {
    match e
    case EArrive(id, r) => s.(req := s.req[id := r], phase := s.phase[id := Enter(s.inFlight, s.store, r)])
    case EWake(id) => s.(phase := s.phase[id := ReplayLooked(s.store.Lookup(StoreKey(s.req[id])))])
    case EResumeReplay(id) => s.(phase := s.phase[id := AfterReplayLookup(s.store, s.req[id], s.phase[id].found)])
    case EResumeCache(id) =>
      var p := AfterCacheLookup(s.req[id], s.phase[id].found);
      s.(phase := s.phase[id := p],
         inFlight := if p.Running? then s.inFlight[StoreKey(s.req[id]) := id] else s.inFlight)
    case EJson(id, statusCode, body) =>
      if statusCode < 500 then
        var record := Record(statusCode, body, Hash(s.req[id]), s.store.now);
        s.(store := AfterSet(s.store, StoreKey(s.req[id]), record),
           log := s.log + [Logged(id, StoreKey(s.req[id]), record)])
      else s
    case EClose(id) => s.(closed := s.closed + {id})
    case EFinalized(id) => s.(inFlight := s.inFlight - {StoreKey(s.req[id])})
    case ETick(elapsed) => s.(store := s.store.(now := s.store.now + elapsed))
    case EFire(i) => s.(store := AfterFire(s.store, i))
  }

  /** The state after all of `events`, or `None` when one of them could not happen. */
  function RunFrom(s: State, events: seq<Event>): Option<State>
    decreases events
  {
    if events == [] then Some(s)
    else if CanStep(s, events[0]) then RunFrom(Step(s, events[0]), events[1..])
    else None
  }

  lemma RunOne(s: State, e: Event, rest: seq<Event>)
    requires CanStep(s, e)
    ensures RunFrom(s, [e] + rest) == RunFrom(Step(s, e), rest)
  {
    assert ([e] + rest)[1..] == rest;
  }

  lemma {:induction false} RunSnoc(s: State, events: seq<Event>, e: Event)
    requires RunFrom(s, events).Some? && CanStep(RunFrom(s, events).value, e)
    ensures RunFrom(s, events + [e]) == Some(Step(RunFrom(s, events).value, e))
    decreases events
  {
    hide Step, CanStep;
    if events == [] {
      assert events + [e] == [e] + [];
      RunNone(s);
      RunOne(s, e, []);
      RunNone(Step(s, e));
    } else {
      RunSnoc(Step(s, events[0]), events[1..], e);
      assert (events + [e])[1..] == events[1..] + [e];
    }
  }

  lemma RunNone(s: State)
    ensures RunFrom(s, []) == Some(s)
  {
  }

  // ---- The invariant ----

  ghost predicate InLog(s: State, key: Text, record: Record) {
    exists i :: 0 <= i < |s.log| && s.log[i].key == key && s.log[i].record == record
  }

  /** Made by a request that ran its handler, under its own store key and hash, with a status below 500. */
  ghost predicate GoodLogged(s: State, l: Logged) {
    && l.author in s.phase && s.phase[l.author].Running? && l.author in s.req && Protected(s.req[l.author])
    && l.key == StoreKey(s.req[l.author]) && l.record.requestHash == Hash(s.req[l.author]) && l.record.statusCode < 500
  }

  ghost predicate GoodPhase(s: State, r: Request, p: Phase) {
    && (!p.Bypassed? ==> Protected(r))
    && match p
       case Waiting(on) => on in s.phase && s.phase[on].Running? && on in s.req && StoreKey(s.req[on]) == StoreKey(r)
       case ReplayLooked(Some(record)) => InLog(s, StoreKey(r), record)
       case CacheLooked(Some(record)) => InLog(s, StoreKey(r), record)
       case Replayed(record, via) =>
         && InLog(s, StoreKey(r), record)
         && (via.SecondLookup? && !AllowReplayOnHashMismatch(r) ==> record.requestHash == Hash(r))
       case Conflict(record) =>
         InLog(s, StoreKey(r), record) && record.requestHash != Hash(r) && !AllowReplayOnHashMismatch(r)
       case _ => true
  }

  ghost predicate GoodInFlight(s: State, key: Text) {
    key in s.inFlight ==>
      var id := s.inFlight[key];
      id in s.phase && s.phase[id].Running? && id in s.req && StoreKey(s.req[id]) == key
  }

  ghost predicate Inv(s: State) {
    && s.phase.Keys == s.req.Keys
    && (forall key :: key in s.store.values ==> InLog(s, key, s.store.values[key]))
    && (forall i :: 0 <= i < |s.log| ==> GoodLogged(s, s.log[i]))
    && (forall id :: id in s.req && id in s.phase ==> GoodPhase(s, s.req[id], s.phase[id]))
    && (forall key :: GoodInFlight(s, key))
    && (forall id :: id in s.closed ==> id in s.phase && s.phase[id].Running?)
  }

  /** Steps only add requests and log entries, and a running handler stays one. */
  ghost predicate Extends(s: State, s': State) {
    && (forall id :: id in s.req ==> id in s'.req && s'.req[id] == s.req[id])
    && (forall id :: id in s.phase ==> id in s'.phase && (s.phase[id].Running? ==> s'.phase[id].Running?))
    && s.log <= s'.log
  }

  lemma StepExtends(s: State, e: Event)
    requires CanStep(s, e)
    ensures Extends(s, Step(s, e))
  {
  }

  lemma InLogGrows(s: State, s': State, key: Text, record: Record)
    requires InLog(s, key, record) && s.log <= s'.log
    ensures InLog(s', key, record)
  {
  }

  lemma PhaseKept(s: State, s': State, r: Request, p: Phase)
    requires GoodPhase(s, r, p) && Extends(s, s')
    ensures GoodPhase(s', r, p)
  {
    hide StoreKey, Hash, Protected, AllowReplayOnHashMismatch;
  }

  /** Everything but the new entry of a step is carried over. */
  lemma Carry(s: State, s': State)
    requires Inv(s) && Extends(s, s')
    ensures forall i :: 0 <= i < |s.log| ==> GoodLogged(s', s'.log[i])
    ensures forall id :: id in s.req && id in s.phase ==> GoodPhase(s', s.req[id], s.phase[id])
    ensures forall key :: key in s.inFlight ==>
              s.inFlight[key] in s'.phase && s'.phase[s.inFlight[key]].Running?
              && s.inFlight[key] in s'.req && StoreKey(s'.req[s.inFlight[key]]) == key
    ensures forall key, record :: InLog(s, key, record) ==> InLog(s', key, record)
  {
    hide StoreKey, Hash, Protected, GoodPhase;
    forall id | id in s.req && id in s.phase
      ensures GoodPhase(s', s.req[id], s.phase[id])
    {
      PhaseKept(s, s', s.req[id], s.phase[id]);
    }
    forall key | key in s.inFlight
      ensures s.inFlight[key] in s'.phase && s'.phase[s.inFlight[key]].Running?
              && s.inFlight[key] in s'.req && StoreKey(s'.req[s.inFlight[key]]) == key
    {
      assert GoodInFlight(s, key);
    }
    forall i | 0 <= i < |s.log|
      ensures GoodLogged(s', s'.log[i])
    {
      assert s'.log[i] == s.log[i] && GoodLogged(s, s.log[i]);
    }
  }

  lemma ArrivalIsGood(s: State, id: nat, r: Request)
    requires Inv(s) && CanStep(s, EArrive(id, r))
    ensures var s' := Step(s, EArrive(id, r)); GoodPhase(s', r, s'.phase[id])
  {
    hide StoreKey, Hash, Protected, AllowReplayOnHashMismatch, GoodLogged;
    assert GoodInFlight(s, StoreKey(r));
  }

  lemma ResumptionIsGood(s: State, e: Event)
    requires Inv(s) && CanStep(s, e) && (e.EWake? || e.EResumeReplay? || e.EResumeCache?)
    ensures var s' := Step(s, e); GoodPhase(s', s.req[e.id], s'.phase[e.id])
  {
    hide StoreKey, Hash, Protected, AllowReplayOnHashMismatch, GoodLogged, GoodInFlight;
    assert GoodPhase(s, s.req[e.id], s.phase[e.id]);
  }

  /** The phase that a step gives its request is a good one. */
  lemma NewPhaseGood(s: State, e: Event)
    requires Inv(s) && CanStep(s, e)
    ensures var s' := Step(s, e);
            match e
            case EArrive(id, r) => GoodPhase(s', r, s'.phase[id])
            case EWake(id) => GoodPhase(s', s.req[id], s'.phase[id])
            case EResumeReplay(id) => GoodPhase(s', s.req[id], s'.phase[id])
            case EResumeCache(id) => GoodPhase(s', s.req[id], s'.phase[id])
            case _ => true
  {
    hide Inv, GoodPhase, Step, CanStep;
    match e
    case EArrive(id, r) => ArrivalIsGood(s, id, r);
    case EWake(_) => ResumptionIsGood(s, e);
    case EResumeReplay(_) => ResumptionIsGood(s, e);
    case EResumeCache(_) => ResumptionIsGood(s, e);
    case _ =>
  }

  lemma StoreStaysLogged(s: State, e: Event)
    requires Inv(s) && CanStep(s, e)
    ensures var s' := Step(s, e); forall key :: key in s'.store.values ==> InLog(s', key, s'.store.values[key])
  {
    hide StoreKey, Hash, Protected, GoodPhase, GoodLogged, GoodInFlight;
    var s' := Step(s, e);
    StepExtends(s, e);
    forall key | key in s'.store.values
      ensures InLog(s', key, s'.store.values[key])
    {
      if key in s.store.values && s'.store.values[key] == s.store.values[key] {
        InLogGrows(s, s', key, s.store.values[key]);
      } else {
        assert s'.log[|s.log|].key == key;
      }
    }
  }

  lemma LogStaysGood(s: State, e: Event)
    requires Inv(s) && CanStep(s, e)
    ensures var s' := Step(s, e); forall i :: 0 <= i < |s'.log| ==> GoodLogged(s', s'.log[i])
  {
    hide StoreKey, Hash, Protected, GoodInFlight, AfterSet;
    var s' := Step(s, e);
    StepExtends(s, e);
    Carry(s, s');
    if e.EJson? {
      assert GoodPhase(s, s.req[e.id], s.phase[e.id]);
    }
  }

  lemma InFlightStaysGood(s: State, e: Event)
    requires Inv(s) && CanStep(s, e)
    ensures forall key :: GoodInFlight(Step(s, e), key)
  {
    hide StoreKey, Hash, Protected, GoodPhase, GoodLogged, InLog, AfterSet, AfterFire, Enter;
    var s' := Step(s, e);
    StepExtends(s, e);
    forall key
      ensures GoodInFlight(s', key)
    {
      assert GoodInFlight(s, key);
    }
  }

  lemma SameRequests(s: State, e: Event)
    requires s.phase.Keys == s.req.Keys && CanStep(s, e)
    ensures Step(s, e).phase.Keys == Step(s, e).req.Keys
  {
    hide StoreKey, Hash, AfterSet, AfterFire, Enter, AfterReplayLookup, AfterCacheLookup;
  }

  lemma ClosedGrows(s: State, e: Event)
    requires CanStep(s, e)
    ensures forall id :: id in Step(s, e).closed ==> id in s.closed || (id in s.phase && s.phase[id].Running?)
  {
    hide StoreKey, Hash, AfterSet, AfterFire, Enter, AfterReplayLookup, AfterCacheLookup;
  }

  lemma ClosedStayRunning(s: State, e: Event)
    requires Inv(s) && CanStep(s, e)
    ensures var s' := Step(s, e);
            s'.phase.Keys == s'.req.Keys && forall id :: id in s'.closed ==> id in s'.phase && s'.phase[id].Running?
  {
    hide Step, CanStep, GoodPhase, GoodLogged, GoodInFlight, InLog;
    SameRequests(s, e);
    ClosedGrows(s, e);
    StepExtends(s, e);
  }

  lemma PhasesStayGood(s: State, e: Event)
    requires Inv(s) && CanStep(s, e)
    ensures var s' := Step(s, e);
            forall id :: id in s'.req && id in s'.phase ==> GoodPhase(s', s'.req[id], s'.phase[id])
  {
    hide StoreKey, Hash, Protected, GoodPhase, GoodLogged, GoodInFlight, InLog, AfterSet, AfterFire, Enter,
      AfterReplayLookup, AfterCacheLookup;
    StepExtends(s, e);
    Carry(s, Step(s, e));
    NewPhaseGood(s, e);
  }

  lemma StepKeepsInv(s: State, e: Event)
    requires Inv(s) && CanStep(s, e)
    ensures Inv(Step(s, e))
  {
    hide Step, CanStep, GoodPhase, GoodLogged, GoodInFlight, InLog;
    ClosedStayRunning(s, e);
    PhasesStayGood(s, e);
    StoreStaysLogged(s, e);
    LogStaysGood(s, e);
    InFlightStaysGood(s, e);
  }

  lemma {:induction false} RunKeepsInv(s: State, events: seq<Event>)
    requires Inv(s) && RunFrom(s, events).Some?
    ensures Inv(RunFrom(s, events).value) && Extends(s, RunFrom(s, events).value)
    decreases events
  {
    hide Inv, Step, CanStep;
    if events != [] {
      StepKeepsInv(s, events[0]);
      StepExtends(s, events[0]);
      RunKeepsInv(Step(s, events[0]), events[1..]);
    }
  }

  /** Every state that is reached. */
  lemma ReachedInv(events: seq<Event>)
    requires RunFrom(INIT, events).Some?
    ensures Inv(RunFrom(INIT, events).value)
  {
    hide RunFrom;
    assert Inv(INIT);
    RunKeepsInv(INIT, events);
  }
}
