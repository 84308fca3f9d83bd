/**
 The in-memory response store of src/lib/idempotencyStore.ts: a JavaScript `Map`, which iterates in insertion order,
 with a one-hour deletion timer per `set` and eviction of the first key beyond 1000 entries.
 */
module IdempotencyStore {
  import opened Options
  import opened Json

  const ONE_HOUR_IN_MILLISECONDS: nat := 3_600_000
  const MEMORY_STORE_MAX_ITEMS: nat := 1_000

  datatype Timer = Timer(key: Text, due: nat)

  /** The map's keys in insertion order, what it holds under each, the pending timers, and the clock. */
  datatype Store<V> = Store(order: seq<Text>, values: map<Text, V>, timers: seq<Timer>, now: nat) {
    function Lookup(key: Text): Option<V> {
      if key in values then Some(values[key]) else None
    }
  }

  function EmptyStore<V>(): Store<V> {
    Store([], map[], [], 0)
  }

  predicate Distinct(keys: seq<Text>) {
    forall i, j :: 0 <= i < j < |keys| ==> keys[i] != keys[j]
  }

  ghost predicate Valid<V>(s: Store<V>) {
    Distinct(s.order) && forall k :: k in s.order <==> k in s.values
  }

  function Without(keys: seq<Text>, key: Text): (r: seq<Text>)
    ensures forall k :: k in r <==> k in keys && k != key
    ensures Distinct(keys) ==> Distinct(r)
    ensures |r| <= |keys|
    ensures key !in keys ==> r == keys
  {
    if keys == [] then [] else
      var r := Without(keys[1..], key);
      assert keys == [keys[0]] + keys[1..];
      assert Distinct(keys) ==> Distinct(keys[1..]) && keys[0] !in keys[1..];
      if keys[0] == key then r else [keys[0]] + r
  }

  function MapDelete<V>(s: Store<V>, key: Text): Store<V> {
    s.(order := Without(s.order, key), values := s.values - {key})
  }

  // ---- What the three operations do ----

  /** `Map.set` and the new timer, before the size is looked at: a known key keeps its place, a new one goes last. */
  function Inserted<V>(s: Store<V>, key: Text, value: V): Store<V> {
    Store(if key in s.values then s.order else s.order + [key], s.values[key := value],
          s.timers + [Timer(key, s.now + ONE_HOUR_IN_MILLISECONDS)], s.now)
  }

  /** Beyond the bound the earliest-inserted key goes, unless it is the empty string, which is falsy. */
  predicate Overfull<V>(s: Store<V>) {
    |s.order| > MEMORY_STORE_MAX_ITEMS && s.order[0] != []
  }

  function AfterSet<V>(s: Store<V>, key: Text, value: V): Store<V> {
    var i := Inserted(s, key, value);
    if Overfull(i) then i.(order := i.order[1..], values := i.values - {i.order[0]}) else i
  }

  predicate CanFire<V>(s: Store<V>, i: nat) {
    i < |s.timers| && s.timers[i].due <= s.now
  }

  function AfterFire<V>(s: Store<V>, i: nat): Store<V>
    requires CanFire(s, i)
  {
    MapDelete(s, s.timers[i].key).(timers := s.timers[..i] + s.timers[i + 1..])
  }

  /** The module-level `memoryStore` and its two functions, with the timers that Node keeps for it. */
  class MemoryStore<V> {
    var order: seq<Text>
    var values: map<Text, V>
    var timers: seq<Timer>
    var now: nat

    ghost function State(): Store<V>
      reads this
    {
      Store(order, values, timers, now)
    }

    constructor ()
      ensures State() == EmptyStore() && Valid(State())
    {
      order, values, timers, now := [], map[], [], 0;
    }

    method MemoryFallbackGet(key: Text) returns (found: Option<V>)
      ensures found == State().Lookup(key)
    {
      if key in values {
        found := Some(values[key]);
      } else {
        found := None;
      }
    }

    method MemoryFallbackSet(key: Text, value: V)
      requires Valid(State())
      modifies this
      ensures Valid(State())
      ensures State() == AfterSet(old(State()), key, value)
    {
      SetKeepsValid(State(), key, value);
      InsertKeepsValid(State(), key, value);
      if key !in values {
        order := order + [key];
      }
      values := values[key := value];
      timers := timers + [Timer(key, now + ONE_HOUR_IN_MILLISECONDS)];
      if |order| > MEMORY_STORE_MAX_ITEMS {
        var firstKey := order[0];
        if firstKey != [] {
          WithoutFirst(order);
          order := Without(order, firstKey);
          values := values - {firstKey};
        }
      }
    }

    /** A timer's callback. */
    method FireTimer(i: nat)
      requires Valid(State()) && CanFire(State(), i)
      modifies this
      ensures Valid(State()) && State() == AfterFire(old(State()), i)
    {
      FireKeepsValid(State(), i);
      var key := timers[i].key;
      order := Without(order, key);
      values := values - {key};
      timers := timers[..i] + timers[i + 1..];
    }
  }

  lemma {:induction false} WithoutFirst(keys: seq<Text>)
    requires keys != [] && Distinct(keys)
    ensures Without(keys, keys[0]) == keys[1..]
  {
    assert keys[0] !in keys[1..];
  }

  lemma InsertKeepsValid<V>(s: Store<V>, key: Text, value: V)
    requires Valid(s)
    ensures Valid(Inserted(s, key, value))
  {
  }

  lemma SetKeepsValid<V>(s: Store<V>, key: Text, value: V)
    requires Valid(s)
    ensures Valid(AfterSet(s, key, value))
  {
    hide Inserted;
    InsertKeepsValid(s, key, value);
    var i := Inserted(s, key, value);
    if Overfull(i) {
      assert i.order == [i.order[0]] + i.order[1..];
      assert i.order[0] !in i.order[1..];
    }
  }

  lemma TickKeepsValid<V>(s: Store<V>, e: nat)
    requires Valid(s)
    ensures Valid(s.(now := s.now + e))
  {
  }

  lemma FireKeepsValid<V>(s: Store<V>, i: nat)
    requires Valid(s) && CanFire(s, i)
    ensures Valid(AfterFire(s, i))
  {
  }

  // ---- Runs ----

  datatype Op<V> = Set(key: Text, value: V) | Tick(elapsed: nat) | Fire(timer: nat)

  predicate Enabled<V>(s: Store<V>, op: Op<V>) {
    op.Fire? ==> CanFire(s, op.timer)
  }

  function Apply<V>(s: Store<V>, op: Op<V>): Store<V>
    requires Enabled(s, op)
  {
    match op
    case Set(key, value) => AfterSet(s, key, value)
    case Tick(elapsed) => s.(now := s.now + elapsed)
    case Fire(i) => AfterFire(s, i)
  }

  /** Running `ops` from the empty store, the latest operation last; `None` when a timer fires too early. */
  function Run<V>(ops: seq<Op<V>>): Option<Store<V>> {
    if ops == [] then Some(EmptyStore())
    else
      match Run(ops[..|ops| - 1])
      case None => None
      case Some(s) => if Enabled(s, ops[|ops| - 1]) then Some(Apply(s, ops[|ops| - 1])) else None
  }

  lemma RunNothing<V>()
    ensures Run<V>([]) == Some(EmptyStore())
  {
  }

  lemma RunLast<V>(ops: seq<Op<V>>)
    requires ops != [] && Run(ops[..|ops| - 1]).Some? && Enabled(Run(ops[..|ops| - 1]).value, ops[|ops| - 1])
    ensures Run(ops) == Some(Apply(Run(ops[..|ops| - 1]).value, ops[|ops| - 1]))
  {
  }

  datatype Stamped<V> = Stamped(value: V, at: nat)

  function Clock<V>(ops: seq<Op<V>>): nat {
    if ops == [] then 0
    else Clock(ops[..|ops| - 1]) + (if ops[|ops| - 1].Tick? then ops[|ops| - 1].elapsed else 0)
  }

  /** The value of the last `set` of `key` in a run, with the time it was made. */
  function LastSet<V>(ops: seq<Op<V>>, key: Text): Option<Stamped<V>> {
    if ops == [] then None
    else
      var op, before := ops[|ops| - 1], ops[..|ops| - 1];
      if op.Set? && op.key == key then Some(Stamped(op.value, Clock(before))) else LastSet(before, key)
  }

  /** What is live under `key` is what was set last, and its deletion is due one hour after that. */
  ghost predicate LiveIsLast<V>(ops: seq<Op<V>>, s: Store<V>, key: Text) {
    key in s.values ==>
      var last := LastSet(ops, key);
      && last.Some? && last.value.value == s.values[key]
      && Timer(key, last.value.at + ONE_HOUR_IN_MILLISECONDS) in s.timers
  }

  lemma RemoveOne(timers: seq<Timer>, i: nat, t: Timer)
    requires i < |timers| && t in timers && t != timers[i]
    ensures t in timers[..i] + timers[i + 1..]
  {
    var j :| 0 <= j < |timers| && timers[j] == t;
    var r := timers[..i] + timers[i + 1..];
    assert if j < i then r[j] == t else r[j - 1] == t;
  }

  lemma SetLive<V>(ops: seq<Op<V>>, s: Store<V>, k: Text, v: V, key: Text)
    requires LiveIsLast(ops, s, key) && s.now == Clock(ops)
    ensures LiveIsLast(ops + [Set(k, v)], AfterSet(s, k, v), key)
  {
    var s' := AfterSet(s, k, v);
    assert (ops + [Op<V>.Set(k, v)])[..|ops|] == ops;
    assert s'.timers[|s.timers|] == Timer(k, s.now + ONE_HOUR_IN_MILLISECONDS);
  }

  lemma FireLive<V>(ops: seq<Op<V>>, s: Store<V>, i: nat, key: Text)
    requires LiveIsLast(ops, s, key) && CanFire(s, i)
    ensures LiveIsLast(ops + [Fire(i)], AfterFire(s, i), key)
  {
    assert (ops + [Op<V>.Fire(i)])[..|ops|] == ops;
    if key in s.values && key != s.timers[i].key {
      RemoveOne(s.timers, i, Timer(key, LastSet(ops, key).value.at + ONE_HOUR_IN_MILLISECONDS));
    }
  }

  /** Every state of every run. */
  lemma {:induction false} StoreInvariant<V>(ops: seq<Op<V>>)
    requires Run(ops).Some?
    ensures Valid(Run(ops).value) && Run(ops).value.now == Clock(ops)
    ensures forall key :: LiveIsLast(ops, Run(ops).value, key)
  {
    hide Valid, LiveIsLast;
    if ops == [] {
      EmptyIsValid<V>();
    } else {
      var op, before := ops[|ops| - 1], ops[..|ops| - 1];
      StoreInvariant(before);
      var s := Run(before).value;
      assert ops == before + [op];
      match op
      case Set(k, v) =>
        SetKeepsValid(s, k, v);
        forall key ensures LiveIsLast(ops, Run(ops).value, key) { SetLive(before, s, k, v, key); }
      case Tick(e) =>
        assert Valid(Run(ops).value) by { TickKeepsValid(s, e); }
        forall key ensures LiveIsLast(ops, Run(ops).value, key) { TickLive(before, s, e, key); }
      case Fire(i) =>
        FireKeepsValid(s, i);
        forall key ensures LiveIsLast(ops, Run(ops).value, key) { FireLive(before, s, i, key); }
    }
  }

  lemma EmptyIsValid<V>()
    ensures Valid(EmptyStore<V>()) && forall key :: LiveIsLast<V>([], EmptyStore(), key)
  {
  }

  lemma TickLive<V>(ops: seq<Op<V>>, s: Store<V>, e: nat, key: Text)
    requires LiveIsLast(ops, s, key)
    ensures LiveIsLast(ops + [Tick(e)], s.(now := s.now + e), key)
  {
    assert (ops + [Op<V>.Tick(e)])[..|ops|] == ops;
  }

  /** `get` returns the last value set for the key, or nothing. */
  lemma GetReturnsLastSet<V>(ops: seq<Op<V>>, key: Text)
    requires Run(ops).Some? && Run(ops).value.Lookup(key).Some?
    ensures LastSet(ops, key).Some? && Run(ops).value.Lookup(key).value == LastSet(ops, key).value.value
  {
    StoreInvariant(ops);
    assert LiveIsLast(ops, Run(ops).value, key);
  }

  /** While no timer is overdue, no entry is more than an hour past its last `set`. */
  lemma NoEntryOutlivesItsHour<V>(ops: seq<Op<V>>, key: Text)
    requires Run(ops).Some? && key in Run(ops).value.values
    requires forall t :: t in Run(ops).value.timers ==> Clock(ops) < t.due
    ensures LastSet(ops, key).Some? && Clock(ops) < LastSet(ops, key).value.at + 3_600_000
  {
    StoreInvariant(ops);
    assert LiveIsLast(ops, Run(ops).value, key);
  }

  /** From a store within the bound, `set` leaves it exactly when the oldest key is the empty string. */
  lemma SetBound<V>(s: Store<V>, key: Text, value: V)
    requires |s.order| <= MEMORY_STORE_MAX_ITEMS
    ensures |AfterSet(s, key, value).order| <= MEMORY_STORE_MAX_ITEMS <==>
            !(key !in s.values && |s.order| == MEMORY_STORE_MAX_ITEMS && s.order[0] == [])
  {
  }

  /** Eviction is first in, first out, touches nothing else, and never takes the key being set. */
  lemma EvictionIsFifo<V>(s: Store<V>, key: Text, value: V)
    requires Valid(s) && |s.order| <= MEMORY_STORE_MAX_ITEMS
    ensures var s' := AfterSet(s, key, value);
            var evicts := key !in s.values && |s.order| == MEMORY_STORE_MAX_ITEMS && s.order[0] != [];
            && s'.Lookup(key) == Some(value)
            && s'.order == (if key in s.values then s.order
                            else if evicts then s.order[1..] + [key]
                            else s.order + [key])
            && forall k :: k != key ==>
                 s'.Lookup(k) == if evicts && k == s.order[0] then None else s.Lookup(k)
  {
    if |s.order| == MEMORY_STORE_MAX_ITEMS {
      assert s.order[0] in s.order;
    }
  }

  lemma PutFirst(x: Text, r: seq<Text>, p: nat, key: Text)
    requires p <= |r|
    ensures [x] + (r[..p] + [key] + r[p..]) == ([x] + r)[..p + 1] + [key] + ([x] + r)[p + 1..]
  {
  }

  /** Where the key was among those that are left. */
  lemma {:induction false} WithoutIs(keys: seq<Text>, key: Text) returns (p: nat)
    requires Distinct(keys) && key in keys
    ensures var r := Without(keys, key); p <= |r| && keys == r[..p] + [key] + r[p..]
  {
    if keys[0] == key {
      p := 0;
      WithoutFirst(keys);
    } else {
      p := WithoutIs(keys[1..], key);
      PutFirst(keys[0], Without(keys[1..], key), p, key);
      assert keys == [keys[0]] + keys[1..];
      p := p + 1;
    }
  }

  /** A timer that fires takes its own key out and nothing else; the others keep their values, places and timers. */
  lemma FireTouchesOneKey<V>(s: Store<V>, i: nat)
    requires Valid(s) && CanFire(s, i)
    ensures var s', key := AfterFire(s, i), s.timers[i].key;
            && s'.Lookup(key) == None
            && (forall k :: k != key ==> s'.Lookup(k) == s.Lookup(k))
            && (key !in s.values ==> s'.order == s.order)
            && (key in s.values ==>
                  exists p: nat :: p <= |s'.order| && s.order == s'.order[..p] + [key] + s'.order[p..])
            && multiset(s'.timers) == multiset(s.timers) - multiset{s.timers[i]} && s'.now == s.now
  {
    var key := s.timers[i].key;
    if key in s.values {
      var p := WithoutIs(s.order, key);
    }
    assert s.timers == s.timers[..i] + [s.timers[i]] + s.timers[i + 1..];
  }

  /** As long as no key is the empty string, the store never holds more than 1000 entries. */
  lemma {:induction false} StoreIsBounded<V>(ops: seq<Op<V>>)
    requires Run(ops).Some? && forall i :: 0 <= i < |ops| && ops[i].Set? ==> ops[i].key != []
    ensures |Run(ops).value.order| <= 1000
    ensures forall i :: 0 <= i < |Run(ops).value.order| ==> Run(ops).value.order[i] != []
  {
    if ops != [] {
      var op, before := ops[|ops| - 1], ops[..|ops| - 1];
      StoreIsBounded(before);
      var s, s' := Run(before).value, Run(ops).value;
      match op
      case Set(k, v) => SetBound(s, k, v);
      case Tick(_) =>
      case Fire(i) =>
        forall k | 0 <= k < |s'.order|
          ensures s'.order[k] != []
        {
          assert s'.order[k] in s'.order;
          assert s'.order[k] in s.order;
        }
    }
  }

  // ---- The empty key ----

  /** The keys of the runs below: the empty string, then ever longer ones. */
  function Ones(n: nat): Text {
    seq(n, _ => 49)
  }

  function FillFromEmptyKey(n: nat): seq<Op<bool>> {
    if n == 0 then [Set([], true)] else FillFromEmptyKey(n - 1) + [Set(Ones(n), true)]
  }

  /** The store those runs lead to: `n + 1` entries, in the order they were set. */
  ghost predicate Filled(s: Store<bool>, n: nat) {
    |s.order| == n + 1 && forall i :: 0 <= i <= n ==> s.order[i] == Ones(i)
  }

  lemma FillOne(s: Store<bool>, n: nat)
    requires n > 0 && Filled(s, n - 1) && Valid(s)
    ensures Filled(AfterSet(s, Ones(n), true), n)
  {
    assert s.order[0] == Ones(0) == [];
    assert Ones(n) !in s.order by {
      assert forall i :: 0 <= i < n ==> |s.order[i]| == i;
    }
  }

  /** Once the empty string is the oldest key nothing is evicted any more, and the store grows without bound. */
  lemma {:induction false} EmptyKeyDefeatsBound(n: nat)
    ensures Run(FillFromEmptyKey(n)).Some? && Filled(Run(FillFromEmptyKey(n)).value, n)
  {
    hide Run, AfterSet, Valid, Ones;
    var ops := FillFromEmptyKey(n);
    if n == 0 {
      FirstIsEmptyKey();
    } else {
      var before := FillFromEmptyKey(n - 1);
      EmptyKeyDefeatsBound(n - 1);
      StoreInvariant(before);
      assert ops[..|ops| - 1] == before;
      FillOne(Run(before).value, n);
      RunLast(ops);
    }
  }

  lemma FirstIsEmptyKey()
    ensures Run(FillFromEmptyKey(0)).Some? && Filled(Run(FillFromEmptyKey(0)).value, 0)
  {
    hide Run;
    var ops := FillFromEmptyKey(0);
    RunNothing<bool>();
    assert ops[..0] == [];
    RunLast(ops);
  }
}
