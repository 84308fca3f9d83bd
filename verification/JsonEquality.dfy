/**
 What `stableStringify` identifies, without sorting: two values print alike exactly when they are the same value,
 where an object is its key set with a value under each key.
 */
module JsonEquality {
  import opened Sorting
  import opened Json
  import opened JsonParser

  predicate DistinctKeys(members: seq<Member>) {
    forall i, j :: 0 <= i < j < |members| ==> members[i].key != members[j].key
  }

  /** No object has a key twice; JavaScript objects never do. */
  predicate WellFormed(v: Json) {
    match v
    case Arr(items) => forall k :: 0 <= k < |items| ==> WellFormed(items[k])
    case Obj(members) => DistinctKeys(members) && forall k :: 0 <= k < |members| ==> WellFormed(members[k].value)
    case _ => true
  }

  predicate HasKey(members: seq<Member>, key: Text) {
    exists k :: 0 <= k < |members| && members[k].key == key
  }

  predicate Same(v: Json, w: Json) {
    match v
    case Undefined => w.Undefined? || w.Null?
    case Null => w.Undefined? || w.Null?
    case Arr(items) =>
      w.Arr? && |items| == |w.items| && forall k :: 0 <= k < |items| ==> Same(items[k], w.items[k])
    case Obj(members) =>
      && w.Obj?
      && (forall k :: 0 <= k < |members| ==> HasSame(members[k], w.members))
      && (forall k :: 0 <= k < |w.members| ==> HasKey(members, w.members[k].key))
    case _ => v == w
  }

  predicate HasSame(m: Member, others: seq<Member>) {
    exists j :: 0 <= j < |others| && others[j].key == m.key && Same(m.value, others[j].value)
  }

  // ---- Code-unit order is a total order ----

  lemma {:induction false} TextLeTotal(a: Text, b: Text)
    ensures TextLe(a, b) || TextLe(b, a)
    ensures TextLe(a, b) && TextLe(b, a) ==> a == b
  {
    if a != [] && b != [] {
      assert a == [a[0]] + a[1..] && b == [b[0]] + b[1..];
      TextLeTotal(a[1..], b[1..]);
    }
  }

  lemma {:induction false} TextLeTransitive(a: Text, b: Text, c: Text)
    requires TextLe(a, b) && TextLe(b, c)
    ensures TextLe(a, c)
  {
    if a != [] && a[0] == b[0] == c[0] {
      TextLeTransitive(a[1..], b[1..], c[1..]);
    }
  }

  lemma KeyOrder()
    ensures TotalPreorder(KEY_LE)
  {
    forall x: Member, y: Member
      ensures KEY_LE(x, y) || KEY_LE(y, x)
    {
      TextLeTotal(x.key, y.key);
    }
    forall x: Member, y: Member, z: Member | KEY_LE(x, y) && KEY_LE(y, z)
      ensures KEY_LE(x, z)
    {
      TextLeTransitive(x.key, y.key, z.key);
    }
  }

  predicate DiffersAt(a: Text, b: Text, k: nat) {
    k < |a| && k < |b| && (forall i :: 0 <= i < k ==> a[i] == b[i]) && a[k] < b[k]
  }

  /** `a` is a beginning of `b`, or has the smaller unit where they first differ. */
  predicate ComesFirst(a: Text, b: Text) {
    a <= b || exists k :: 0 <= k < |a| && DiffersAt(a, b, k)
  }

  lemma DiffersLater(a: Text, b: Text, k: nat)
    requires a != [] && b != []
    ensures DiffersAt(a, b, k + 1) <==> a[0] == b[0] && DiffersAt(a[1..], b[1..], k)
    ensures DiffersAt(a, b, 0) <==> a[0] < b[0]
  {
    var c, d := a[1..], b[1..];
    if a[0] == b[0] && DiffersAt(c, d, k) {
      assert forall i :: 0 < i < k + 1 ==> a[i] == c[i - 1] && b[i] == d[i - 1];
    }
    if DiffersAt(a, b, k + 1) {
      assert forall i :: 0 <= i < k ==> c[i] == a[i + 1] && d[i] == b[i + 1];
    }
  }

  lemma ComesFirstStep(a: Text, b: Text)
    requires a != [] && b != []
    ensures ComesFirst(a, b) <==> a[0] < b[0] || (a[0] == b[0] && ComesFirst(a[1..], b[1..]))
  {
    hide DiffersAt;
    var c, d := a[1..], b[1..];
    assert a == [a[0]] + c && b == [b[0]] + d;
    forall k | 0 <= k < |c|
      ensures DiffersAt(a, b, k + 1) <==> a[0] == b[0] && DiffersAt(c, d, k)
    {
      DiffersLater(a, b, k);
    }
    DiffersLater(a, b, 0);
    if k :| 0 <= k < |a| && DiffersAt(a, b, k) {
      if k > 0 {
        DiffersLater(a, b, k - 1);
        assert DiffersAt(c, d, k - 1);
      }
    }
  }

  lemma {:induction false} TextLeMeans(a: Text, b: Text)
    ensures TextLe(a, b) <==> ComesFirst(a, b)
  {
    hide ComesFirst;
    if a != [] && b != [] {
      TextLeMeans(a[1..], b[1..]);
      ComesFirstStep(a, b);
    } else {
      ComesFirstEmpty(a, b);
    }
  }

  lemma ComesFirstEmpty(a: Text, b: Text)
    requires a == [] || b == []
    ensures ComesFirst(a, b) <==> a == []
  {
  }

  // ---- The order of members does not matter ----

  lemma DistinctNoTies(members: seq<Member>)
    requires DistinctKeys(members)
    ensures NoTies(members, KEY_LE)
  {
    forall x, y | x in members && y in members && KEY_LE(x, y) && KEY_LE(y, x)
      ensures x == y
    {
      TextLeTotal(x.key, y.key);
      var i :| 0 <= i < |members| && members[i] == x;
      var j :| 0 <= j < |members| && members[j] == y;
    }
  }

  /** Any permutation of an object's members prints alike. */
  lemma MemberOrderIsIrrelevant(a: seq<Member>, b: seq<Member>)
    requires DistinctKeys(a) && multiset(a) == multiset(b)
    ensures StableStringify(Obj(a)) == StableStringify(Obj(b))
  {
    hide StableStringify, Print;
    KeyOrder();
    DistinctNoTies(a);
    SortIgnoresOrder(a, b, KEY_LE);
    InSorted(Obj(a));
    InSorted(Obj(b));
    assert CanonMembers(Obj(a), SortKeys(a)) == CanonMembers(Obj(b), SortKeys(b));
    StablePrintsCanon(Obj(a));
    StablePrintsCanon(Obj(b));
  }

  // ---- Sorted keys ----

  predicate StrictlySorted(members: seq<Member>) {
    forall i, j :: 0 <= i < j < |members| ==> TextLe(members[i].key, members[j].key) && members[i].key != members[j].key
  }

  function KeyOf(m: Member): Text {
    m.key
  }

  lemma SortKeepsDistinct(members: seq<Member>)
    requires DistinctKeys(members)
    ensures DistinctKeys(SortKeys(members))
  {
    hide Sort;
    assert DistinctNames(members, KeyOf);
    SortDistinct(members, KEY_LE, KeyOf);
    var r := SortKeys(members);
    assert forall i, j :: 0 <= i < j < |r| ==> KeyOf(r[i]) != KeyOf(r[j]);
  }

  lemma SortStrictly(members: seq<Member>)
    requires DistinctKeys(members)
    ensures StrictlySorted(SortKeys(members))
  {
    KeyOrder();
    SortSorts(members, KEY_LE);
    SortKeepsDistinct(members);
    var r := SortKeys(members);
    forall i, j | 0 <= i < j < |r|
      ensures TextLe(r[i].key, r[j].key)
    {
      assert KEY_LE(r[i], r[j]);
    }
  }

  /** What is printed for an object lists its members in ascending order of their keys, by code units. */
  lemma PrintedKeysAscend(members: seq<Member>)
    requires DistinctKeys(members)
    ensures var p := ParseValue(StableStringify(Obj(members)));
            && p.Parsed? && p.value.Obj? && p.rest == [] && |p.value.members| == |members|
            && forall i, j :: 0 <= i < j < |p.value.members| ==>
                 ComesFirst(p.value.members[i].key, p.value.members[j].key)
  {
    hide StableStringify, ParseValue, ComesFirst, SortKeys;
    StableStringifyRoundTrip(Obj(members));
    SortStrictly(members);
    InSorted(Obj(members));
    var sorted := SortKeys(members);
    assert |multiset(sorted)| == |sorted| && |multiset(members)| == |members|;
    forall i, j | 0 <= i < j < |sorted|
      ensures ComesFirst(sorted[i].key, sorted[j].key)
    {
      TextLeMeans(sorted[i].key, sorted[j].key);
    }
  }

  predicate SameKeySets(a: seq<Member>, b: seq<Member>) {
    && (forall k :: 0 <= k < |a| ==> HasKey(b, a[k].key))
    && (forall k :: 0 <= k < |b| ==> HasKey(a, b[k].key))
  }

  lemma FirstKeysAgree(a: seq<Member>, b: seq<Member>)
    requires StrictlySorted(a) && StrictlySorted(b) && SameKeySets(a, b) && (a != [] || b != [])
    ensures a != [] && b != [] && a[0].key == b[0].key
  {
    hide TextLe;
    assert a != [] ==> HasKey(b, a[0].key);
    assert b != [] ==> HasKey(a, b[0].key);
    TextLeTotal(a[0].key, b[0].key);
  }

  lemma {:induction false} SameKeyOrder(a: seq<Member>, b: seq<Member>)
    requires StrictlySorted(a) && StrictlySorted(b) && SameKeySets(a, b)
    ensures |a| == |b| && forall k :: 0 <= k < |a| ==> a[k].key == b[k].key
  {
    hide TextLe;
    if a != [] || b != [] {
      FirstKeysAgree(a, b);
      TailKeys(a, b);
      TailKeys(b, a);
      SameKeyOrder(a[1..], b[1..]);
      assert forall k :: 1 <= k < |a| ==> a[k] == a[1..][k - 1] && b[k] == b[1..][k - 1];
    }
  }

  lemma TailKeys(a: seq<Member>, b: seq<Member>)
    requires a != [] && b != [] && StrictlySorted(a) && SameKeySets(a, b) && a[0].key == b[0].key
    ensures forall k :: 0 <= k < |a[1..]| ==> HasKey(b[1..], a[1..][k].key)
  {
    forall k | 0 <= k < |a[1..]|
      ensures HasKey(b[1..], a[1..][k].key)
    {
      assert a[1..][k] == a[k + 1] && HasKey(b, a[k + 1].key);
      var j :| 0 <= j < |b| && b[j].key == a[k + 1].key;
      assert b[1..][j - 1] == b[j];
    }
  }

  lemma HasKeySorted(members: seq<Member>, key: Text)
    ensures HasKey(SortKeys(members), key) <==> HasKey(members, key)
  {
    var r := SortKeys(members);
    if HasKey(r, key) {
      var k :| 0 <= k < |r| && r[k].key == key;
      assert r[k] in multiset(members);
    }
    if HasKey(members, key) {
      var k :| 0 <= k < |members| && members[k].key == key;
      assert members[k] in multiset(r);
    }
  }

  // ---- Equality ----

  /** Equal canonical forms pair each member of one object with a member of the other. */
  lemma PairedMember(v: Json, w: Json, k: nat) returns (j: nat)
    requires v.Obj? && w.Obj? && Canon(v) == Canon(w) && k < |v.members|
    ensures j < |w.members| && w.members[j].key == v.members[k].key
    ensures Canon(v.members[k].value) == Canon(w.members[j].value)
  {
    hide SortKeys;
    var a, b := SortKeys(v.members), SortKeys(w.members);
    InSorted(v);
    InSorted(w);
    var ca, cb := CanonMembers(v, a), CanonMembers(w, b);
    assert ca == cb;
    assert v.members[k] in multiset(a);
    var i :| 0 <= i < |a| && a[i] == v.members[k];
    assert ca[i] == cb[i];
    assert b[i] in w.members;
    j :| 0 <= j < |w.members| && w.members[j] == b[i];
  }

  lemma {:induction false} CanonEqualIsSame(v: Json, w: Json)
    requires Canon(v) == Canon(w)
    ensures Same(v, w)
    decreases v
  {
    match v
    case Arr(items) =>
      forall k | 0 <= k < |items|
        ensures Same(items[k], w.items[k])
      {
        CanonEqualIsSame(items[k], w.items[k]);
      }
    case Obj(members) =>
      hide Canon;
      assert w.Obj? by { CanonKind(v, w); }
      forall k | 0 <= k < |members|
        ensures HasSame(members[k], w.members)
      {
        var j := PairedMember(v, w, k);
        CanonEqualIsSame(members[k].value, w.members[j].value);
      }
      forall k | 0 <= k < |w.members|
        ensures HasKey(members, w.members[k].key)
      {
        var j := PairedMember(w, v, k);
      }
    case _ =>
  }

  lemma CanonKind(v: Json, w: Json)
    requires Canon(v) == Canon(w)
    ensures v.Obj? <==> w.Obj?
  {
  }

  lemma {:induction false} SameIsCanonEqual(v: Json, w: Json)
    requires WellFormed(v) && WellFormed(w) && Same(v, w)
    ensures Canon(v) == Canon(w)
    decreases v
  {
    match v
    case Arr(items) =>
      forall k | 0 <= k < |items|
        ensures Canon(items[k]) == Canon(w.items[k])
      {
        SameIsCanonEqual(items[k], w.items[k]);
      }
      assert CanonItems(v, items) == CanonItems(w, w.items);
    case Obj(members) => SameObjects(v, w);
    case _ =>
  }

  lemma {:induction false} SameObjects(v: Json, w: Json)
    requires v.Obj? && WellFormed(v) && WellFormed(w) && Same(v, w)
    ensures Canon(v) == Canon(w)
    decreases v, 0
  {
    hide SortKeys, StrictlySorted, Same, WellFormed;
    assert w.Obj? by { SameKind(v, w); }
    var a, b := SortKeys(v.members), SortKeys(w.members);
    InSorted(v);
    InSorted(w);
    assert DistinctKeys(v.members) && DistinctKeys(w.members) by { ObjectKeys(v); ObjectKeys(w); }
    SortStrictly(v.members);
    SortStrictly(w.members);
    KeysAgree(v, w);
    SameKeyOrder(a, b);
    forall k | 0 <= k < |a|
      ensures Canon(a[k].value) == Canon(b[k].value)
    {
      var i, j := SameMember(v, w, a[k], b[k]);
      SameIsCanonEqual(v.members[i].value, w.members[j].value);
    }
    assert CanonMembers(v, a) == CanonMembers(w, b);
  }

  lemma SameKind(v: Json, w: Json)
    requires Same(v, w)
    ensures v.Obj? ==> w.Obj?
  {
  }

  lemma ObjectKeys(v: Json)
    requires v.Obj? && WellFormed(v)
    ensures DistinctKeys(v.members) && forall k :: 0 <= k < |v.members| ==> WellFormed(v.members[k].value)
  {
  }

  /** Members of the same object values under one key have the same value. */
  lemma SameMember(v: Json, w: Json, m: Member, n: Member) returns (i: nat, j: nat)
    requires v.Obj? && w.Obj? && WellFormed(v) && WellFormed(w) && Same(v, w)
    requires m in v.members && n in w.members && m.key == n.key
    ensures i < |v.members| && v.members[i] == m && j < |w.members| && w.members[j] == n
    ensures WellFormed(m.value) && WellFormed(n.value) && Same(m.value, n.value)
  {
    ObjectKeys(v);
    ObjectKeys(w);
    i :| 0 <= i < |v.members| && v.members[i] == m;
    assert HasSame(v.members[i], w.members);
    j :| 0 <= j < |w.members| && w.members[j].key == m.key && Same(m.value, w.members[j].value);
    var k :| 0 <= k < |w.members| && w.members[k] == n;
    assert j == k;
  }

  lemma KeysAgree(v: Json, w: Json)
    requires v.Obj? && Same(v, w)
    ensures SameKeySets(SortKeys(v.members), SortKeys(w.members))
  {
    var a, b := SortKeys(v.members), SortKeys(w.members);
    forall k | 0 <= k < |a|
      ensures HasKey(b, a[k].key)
    {
      assert HasKey(a, a[k].key);
      HasKeySorted(v.members, a[k].key);
      var i :| 0 <= i < |v.members| && v.members[i].key == a[k].key;
      assert HasSame(v.members[i], w.members);
      HasKeySorted(w.members, a[k].key);
    }
    forall k | 0 <= k < |b|
      ensures HasKey(a, b[k].key)
    {
      assert HasKey(b, b[k].key);
      HasKeySorted(w.members, b[k].key);
      HasKeySorted(v.members, b[k].key);
    }
  }

  /** Two values print alike exactly when they are the same value up to the order of members. */
  lemma PrintsAlikeIffSame(v: Json, w: Json)
    requires WellFormed(v) && WellFormed(w)
    ensures StableStringify(v) == StableStringify(w) <==> Same(v, w)
  {
    hide StableStringify, Canon, Same, WellFormed;
    StableStringifyInjective(v, w);
    if Same(v, w) {
      SameIsCanonEqual(v, w);
    }
    if Canon(v) == Canon(w) {
      CanonEqualIsSame(v, w);
    }
  }
}
