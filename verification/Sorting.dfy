/**
 The stable sort with a comparator that `Array.prototype.sort` performs. What the rest relies on is the order and
 the contents of the result, which determine it when the comparator tells all elements apart.
 */
module Sorting {

  function Insert<T>(x: T, s: seq<T>, le: (T, T) -> bool): (r: seq<T>)
    ensures multiset(r) == multiset{x} + multiset(s)
  {
    if s == [] then [x]
    else if le(x, s[0]) then [x] + s
    else
      assert s == [s[0]] + s[1..];
      [s[0]] + Insert(x, s[1..], le)
  }

  function Sort<T>(s: seq<T>, le: (T, T) -> bool): (r: seq<T>)
    ensures multiset(r) == multiset(s)
  {
    if s == [] then [] else
      assert s == [s[0]] + s[1..];
      Insert(s[0], Sort(s[1..], le), le)
  }

  ghost predicate TotalPreorder<T(!new)>(le: (T, T) -> bool) {
    && (forall x, y :: le(x, y) || le(y, x))
    && (forall x, y, z :: le(x, y) && le(y, z) ==> le(x, z))
  }

  predicate SortedBy<T>(s: seq<T>, le: (T, T) -> bool) {
    forall i, j :: 0 <= i < j < |s| ==> le(s[i], s[j])
  }

  lemma {:induction false} InsertSorts<T(!new)>(x: T, s: seq<T>, le: (T, T) -> bool)
    requires TotalPreorder(le) && SortedBy(s, le)
    ensures SortedBy(Insert(x, s, le), le)
  {
    if s != [] && !le(x, s[0]) {
      InsertSorts(x, s[1..], le);
      var r := Insert(x, s[1..], le);
      forall k | 0 <= k < |r|
        ensures le(s[0], r[k])
      {
        assert r[k] in multiset(r);
        assert r[k] == x || r[k] in s[1..];
      }
    }
  }

  lemma {:induction false} SortSorts<T(!new)>(s: seq<T>, le: (T, T) -> bool)
    requires TotalPreorder(le)
    ensures SortedBy(Sort(s, le), le)
  {
    if s != [] {
      SortSorts(s[1..], le);
      InsertSorts(s[0], Sort(s[1..], le), le);
    }
  }

  /** Distinct elements of `s` never tie. */
  ghost predicate NoTies<T>(s: seq<T>, le: (T, T) -> bool) {
    forall x, y :: x in s && y in s && le(x, y) && le(y, x) ==> x == y
  }

  lemma LeastFirst<T>(a: seq<T>, b: seq<T>, le: (T, T) -> bool)
    requires a != [] && b != [] && multiset(a) == multiset(b) && SortedBy(a, le) && SortedBy(b, le) && NoTies(a, le)
    ensures a[0] == b[0]
  {
    assert a[0] in multiset(b) && b[0] in multiset(a);
    var i :| 0 <= i < |b| && b[i] == a[0];
    var j :| 0 <= j < |a| && a[j] == b[0];
    if i > 0 && j > 0 {
      assert le(b[0], b[i]) && le(a[0], a[j]);
    }
  }

  lemma Tail<T>(s: seq<T>, le: (T, T) -> bool)
    requires s != [] && SortedBy(s, le)
    ensures s == [s[0]] + s[1..] && SortedBy(s[1..], le)
    ensures multiset(s[1..]) == multiset(s) - multiset{s[0]}
    ensures NoTies(s, le) ==> NoTies(s[1..], le)
  {
    assert s == [s[0]] + s[1..];
    assert forall x :: x in s[1..] ==> x in s;
  }

  /** Two sorted arrangements of the same elements are the same when no two distinct elements tie. */
  lemma {:induction false} SortedUnique<T>(a: seq<T>, b: seq<T>, le: (T, T) -> bool)
    requires multiset(a) == multiset(b) && SortedBy(a, le) && SortedBy(b, le) && NoTies(a, le)
    ensures a == b
  {
    hide SortedBy, NoTies;
    assert |multiset(a)| == |a| && |multiset(b)| == |b|;
    if a != [] {
      LeastFirst(a, b, le);
      Tail(a, le);
      Tail(b, le);
      SortedUnique(a[1..], b[1..], le);
    }
  }

  /** Sorting does not depend on the order the elements come in. */
  lemma SortIgnoresOrder<T(!new)>(a: seq<T>, b: seq<T>, le: (T, T) -> bool)
    requires TotalPreorder(le) && multiset(a) == multiset(b)
    requires NoTies(a, le)
    ensures Sort(a, le) == Sort(b, le)
  {
    SortSorts(a, le);
    SortSorts(b, le);
    assert NoTies(Sort(a, le), le) by {
      assert forall x :: x in Sort(a, le) ==> x in multiset(Sort(a, le)) && x in multiset(a);
    }
    SortedUnique(Sort(a, le), Sort(b, le), le);
  }

  lemma CountedTwice<T>(s: seq<T>, i: nat, j: nat)
    requires i < j < |s| && s[i] == s[j]
    ensures multiset(s)[s[i]] >= 2
  {
    assert s == s[..j] + s[j..];
    assert s[i] == s[..j][i] && s[j] == s[j..][0];
    assert s[i] in multiset(s[..j]) && s[i] in multiset(s[j..]);
  }

  lemma {:induction false} OnceEach<T>(s: seq<T>, x: T)
    requires forall i, j :: 0 <= i < j < |s| ==> s[i] != s[j]
    ensures multiset(s)[x] <= 1
  {
    if s != [] {
      OnceEach(s[1..], x);
      assert s == [s[0]] + s[1..];
      if x == s[0] {
        assert x !in s[1..];
      }
    }
  }

  /** Cutting a sorted sequence: both parts are sorted, nothing is lost, and what is cut off comes after the rest. */
  lemma CutSorted<T>(s: seq<T>, n: nat, le: (T, T) -> bool)
    requires SortedBy(s, le) && n <= |s|
    ensures multiset(s[..n]) + multiset(s[n..]) == multiset(s)
    ensures SortedBy(s[..n], le) && SortedBy(s[n..], le)
    ensures forall x, y :: x in s[..n] && y in s[n..] ==> le(x, y)
  {
    assert s == s[..n] + s[n..];
    forall x, y | x in s[..n] && y in s[n..]
      ensures le(x, y)
    {
      var i :| 0 <= i < n && s[i] == x;
      var j :| 0 <= j < |s| - n && s[n..][j] == y;
      assert s[n + j] == y;
    }
  }

  // ---- Strings compared by `localeCompare` ----

  type Collator = (string, string) -> int

  /** `localeCompare` tells all strings apart and is antisymmetric and transitive. */
  ghost predicate IsCollator(locale: Collator) {
    && (forall a, b :: locale(a, b) == 0 <==> a == b)
    && (forall a, b :: locale(a, b) < 0 <==> locale(b, a) > 0)
    && (forall a, b, c :: locale(a, b) < 0 && locale(b, c) < 0 ==> locale(a, c) < 0)
  }

  function CollatorLe(locale: Collator): (string, string) -> bool {
    (a: string, b: string) => locale(a, b) <= 0
  }

  lemma CollatorOrders(locale: Collator)
    requires IsCollator(locale)
    ensures TotalPreorder(CollatorLe(locale))
    ensures forall a, b :: CollatorLe(locale)(a, b) && CollatorLe(locale)(b, a) ==> a == b
  {
    forall a, b
      ensures CollatorLe(locale)(a, b) || CollatorLe(locale)(b, a)
      ensures CollatorLe(locale)(a, b) && CollatorLe(locale)(b, a) ==> a == b
    {
      assert locale(a, b) < 0 <==> locale(b, a) > 0;
      assert locale(b, a) < 0 <==> locale(a, b) > 0;
      assert locale(a, b) == 0 <==> a == b;
    }
    forall a, b, c | CollatorLe(locale)(a, b) && CollatorLe(locale)(b, c)
      ensures CollatorLe(locale)(a, c)
    {
      assert locale(a, b) == 0 <==> a == b;
      assert locale(b, c) == 0 <==> b == c;
      assert locale(a, b) < 0 && locale(b, c) < 0 ==> locale(a, c) < 0;
    }
  }

  // ---- Rows sorted by a name ----

  /** `.sort((a, b) => a.name.localeCompare(b.name))` */
  function NameLe<T>(name: T -> string, locale: Collator): (T, T) -> bool {
    (a: T, b: T) => locale(name(a), name(b)) <= 0
  }

  predicate DistinctNames<T, K(==)>(rows: seq<T>, name: T -> K) {
    forall i, j :: 0 <= i < j < |rows| ==> name(rows[i]) != name(rows[j])
  }

  /** A string is its own name. */
  function Itself(s: string): string {
    s
  }

  /** In order of their names, no name twice. */
  ghost predicate Ascending<T>(rows: seq<T>, name: T -> string, locale: Collator) {
    forall i, j :: 0 <= i < j < |rows| ==> locale(name(rows[i]), name(rows[j])) < 0
  }

  lemma NameLeOrders<T(!new)>(name: T -> string, locale: Collator)
    requires IsCollator(locale)
    ensures TotalPreorder(NameLe(name, locale))
  {
    hide IsCollator;
    CollatorOrders(locale);
    var le, nameLe := CollatorLe(locale), NameLe(name, locale);
    forall x: T, y: T
      ensures nameLe(x, y) || nameLe(y, x)
    {
      assert le(name(x), name(y)) || le(name(y), name(x));
    }
    forall x: T, y: T, z: T | nameLe(x, y) && nameLe(y, z)
      ensures nameLe(x, z)
    {
      assert le(name(x), name(y)) && le(name(y), name(z)) ==> le(name(x), name(z));
    }
  }

  lemma {:induction false} InsertDistinct<T, K>(x: T, s: seq<T>, le: (T, T) -> bool, name: T -> K)
    requires DistinctNames(s, name) && forall i :: 0 <= i < |s| ==> name(s[i]) != name(x)
    ensures DistinctNames(Insert(x, s, le), name)
  {
    if s != [] && !le(x, s[0]) {
      InsertDistinct(x, s[1..], le, name);
      var r := Insert(x, s[1..], le);
      forall k | 0 <= k < |r|
        ensures name(r[k]) != name(s[0])
      {
        assert r[k] in multiset(r);
        assert r[k] == x || r[k] in s[1..];
      }
    }
  }

  lemma {:induction false} SortDistinct<T, K>(s: seq<T>, le: (T, T) -> bool, name: T -> K)
    requires DistinctNames(s, name)
    ensures DistinctNames(Sort(s, le), name)
  {
    if s != [] {
      SortDistinct(s[1..], le, name);
      var r := Sort(s[1..], le);
      forall k | 0 <= k < |r|
        ensures name(r[k]) != name(s[0])
      {
        assert r[k] in multiset(r);
        assert r[k] in s[1..];
      }
      InsertDistinct(s[0], r, le, name);
    }
  }

  /** Sorting rows with distinct names puts the names in ascending order, and keeps the rows. */
  lemma SortAscends<T(!new)>(s: seq<T>, name: T -> string, locale: Collator)
    requires IsCollator(locale) && DistinctNames(s, name)
    ensures Ascending(Sort(s, NameLe(name, locale)), name, locale)
    ensures forall x :: x in Sort(s, NameLe(name, locale)) <==> x in s
  {
    hide IsCollator, Sort, DistinctNames;
    var le := NameLe(name, locale);
    var r := Sort(s, le);
    NameLeOrders(name, locale);
    SortSorts(s, le);
    SortDistinct(s, le, name);
    CollatorOrders(locale);
    forall i, j | 0 <= i < j < |r|
      ensures locale(name(r[i]), name(r[j])) < 0
    {
      assert le(r[i], r[j]);
      NamesDiffer(r, name, i, j);
      NoZero(locale, name(r[i]), name(r[j]));
    }
    assert forall x :: x in r <==> x in multiset(r);
  }

  lemma NamesDiffer<T>(s: seq<T>, name: T -> string, i: nat, j: nat)
    requires DistinctNames(s, name) && i < j < |s|
    ensures name(s[i]) != name(s[j])
  {
  }

  lemma NoZero(locale: Collator, a: string, b: string)
    requires IsCollator(locale) && a != b
    ensures locale(a, b) != 0
  {
  }

  /** There is one way to put given rows in ascending order. */
  lemma AscendingUnique<T(!new)>(s: seq<T>, t: seq<T>, name: T -> string, locale: Collator)
    requires IsCollator(locale) && Ascending(s, name, locale) && Ascending(t, name, locale)
    requires forall x :: x in s <==> x in t
    ensures s == t
    decreases |s|
  {
    hide IsCollator, Ascending;
    if s != [] || t != [] {
      BothOrNeither(s, t);
      FirstAgrees(s, t, name, locale);
      var a, b := s[1..], t[1..];
      forall x
        ensures x in a <==> x in b
      {
        RestHas(s, name, locale, x);
        RestHas(t, name, locale, x);
      }
      RestHas(s, name, locale, s[0]);
      RestHas(t, name, locale, t[0]);
      AscendingUnique(a, b, name, locale);
      assert s == [s[0]] + a && t == [t[0]] + b;
    }
  }

  lemma BothOrNeither<T>(s: seq<T>, t: seq<T>)
    requires forall x :: x in s <==> x in t
    ensures s == [] <==> t == []
  {
    if s != [] {
      assert s[0] in s;
    }
    if t != [] {
      assert t[0] in t;
    }
  }

  lemma RestHas<T>(s: seq<T>, name: T -> string, locale: Collator, x: T)
    requires IsCollator(locale) && s != [] && Ascending(s, name, locale)
    ensures x in s[1..] <==> x in s && x != s[0]
    ensures Ascending(s[1..], name, locale)
  {
    assert s == [s[0]] + s[1..];
    assert locale(name(s[0]), name(s[0])) == 0;
    if x in s[1..] {
      var i :| 0 <= i < |s| - 1 && s[1..][i] == x;
      assert locale(name(s[0]), name(s[i + 1])) < 0;
    }
  }

  lemma FirstAgrees<T>(s: seq<T>, t: seq<T>, name: T -> string, locale: Collator)
    requires IsCollator(locale) && Ascending(s, name, locale) && Ascending(t, name, locale)
    requires s != [] && t != [] && s[0] in t && t[0] in s
    ensures s[0] == t[0]
  {
    assert forall k :: 0 < k < |t| ==> locale(name(t[0]), name(t[k])) < 0;
    assert forall k :: 0 < k < |s| ==> locale(name(s[0]), name(s[k])) < 0;
    var i :| 0 <= i < |t| && t[i] == s[0];
    var j :| 0 <= j < |s| && s[j] == t[0];
    assert locale(name(s[0]), name(t[0])) < 0 <==> locale(name(t[0]), name(s[0])) > 0;
  }
}
