/** The unhashed request fingerprint of src/platform/idempotency.ts, `method:path:body`, and that it is injective. */
module Fingerprint {
  import opened Json
  import opened JsonParser
  import opened JsonEquality

  /** `req.body ?? {}` */
  function BodyOrEmpty(body: Json): Json {
    if body.Undefined? || body.Null? then Obj([]) else body
  }

  function Payload(verb: Text, path: Text, body: Json): Text {
    verb + [COLON] + path + [COLON] + StableStringify(BodyOrEmpty(body))
  }

  predicate NoColon(t: Text) {
    forall k :: 0 <= k < |t| ==> t[k] != COLON
  }

  // ---- Reading a text left to right: inside a string or not, and how deep in brackets ----

  datatype Reading = Stuck | At(inString: bool, depth: int)

  /** Stuck on what no printed value holds: an escaped colon, a backslash or an outermost colon outside strings. */
  function Scan(s: Text, inString: bool, depth: int): Reading
    decreases |s|
  {
    if s == [] then At(inString, depth)
    else if inString then
      if s[0] == QUOTE then Scan(s[1..], false, depth)
      else if s[0] == BACKSLASH then
        if |s| > 1 && s[1] != COLON then Scan(s[2..], true, depth) else Stuck
      else Scan(s[1..], true, depth)
    else if s[0] == QUOTE then Scan(s[1..], true, depth)
    else if s[0] == OPEN_BRACKET || s[0] == OPEN_BRACE then Scan(s[1..], false, depth + 1)
    else if s[0] == CLOSE_BRACKET || s[0] == CLOSE_BRACE then Scan(s[1..], false, depth - 1)
    else if s[0] == BACKSLASH || (s[0] == COLON && depth <= 0) then Stuck
    else Scan(s[1..], false, depth)
  }

  predicate Ordinary(u: Unit) {
    u != QUOTE && u != BACKSLASH && u != OPEN_BRACKET && u != OPEN_BRACE && u != CLOSE_BRACKET && u != CLOSE_BRACE
    && u != COLON
  }

  lemma {:induction false} ScanOrdinary(t: Text, rest: Text, inString: bool, depth: int)
    requires forall k :: 0 <= k < |t| ==> Ordinary(t[k])
    ensures Scan(t + rest, inString, depth) == Scan(rest, inString, depth)
  {
    if t == [] {
      assert t + rest == rest;
    } else {
      assert (t + rest)[1..] == t[1..] + rest;
      ScanOrdinary(t[1..], rest, inString, depth);
    }
  }

  lemma ScanEscapedUnit(u: Unit, rest: Text, depth: int)
    ensures Scan(EscapeUnit(u) + rest, true, depth) == Scan(rest, true, depth)
  {
    var e := EscapeUnit(u);
    if |e| == 1 {
      assert (e + rest)[1..] == rest;
    } else {
      assert (e + rest)[2..] == e[2..] + rest;
      ScanOrdinary(e[2..], rest, true, depth);
    }
  }

  lemma EscapeStep(t: Text)
    ensures t == [] ==> Escape(t) == []
    ensures t != [] ==> Escape(t) == if IsHigh(t[0]) && |t| > 1 && IsLow(t[1]) then t[..2] + Escape(t[2..])
                                     else EscapeUnit(t[0]) + Escape(t[1..])
  {
    hide EscapeUnit;
  }

  lemma PairIsOrdinary(t: Text)
    requires |t| == 2 && IsHigh(t[0]) && IsLow(t[1])
    ensures forall k :: 0 <= k < |t| ==> Ordinary(t[k])
  {
  }

  lemma {:induction false} ScanEscaped(t: Text, rest: Text, depth: int)
    ensures Scan(Escape(t) + rest, true, depth) == Scan(rest, true, depth)
    decreases |t|
  {
    hide Scan, Escape, EscapeUnit, Ordinary;
    EscapeStep(t);
    if t == [] {
      assert [] + rest == rest;
    } else if IsHigh(t[0]) && |t| > 1 && IsLow(t[1]) {
      assert Escape(t) + rest == t[..2] + (Escape(t[2..]) + rest);
      PairIsOrdinary(t[..2]);
      ScanOrdinary(t[..2], Escape(t[2..]) + rest, true, depth);
      ScanEscaped(t[2..], rest, depth);
    } else {
      assert Escape(t) + rest == EscapeUnit(t[0]) + (Escape(t[1..]) + rest);
      ScanEscapedUnit(t[0], Escape(t[1..]) + rest, depth);
      ScanEscaped(t[1..], rest, depth);
    }
  }

  lemma ScanStep(u: Unit, rest: Text, inString: bool, depth: int)
    ensures u == QUOTE ==> Scan([u] + rest, inString, depth) == Scan(rest, !inString, depth)
    ensures !inString && (u == OPEN_BRACKET || u == OPEN_BRACE)
            ==> Scan([u] + rest, inString, depth) == Scan(rest, false, depth + 1)
    ensures !inString && (u == CLOSE_BRACKET || u == CLOSE_BRACE)
            ==> Scan([u] + rest, inString, depth) == Scan(rest, false, depth - 1)
    ensures u == COMMA || (u == COLON && (inString || depth > 0))
            ==> Scan([u] + rest, inString, depth) == Scan(rest, inString, depth)
    ensures u == COLON && !inString && depth <= 0 ==> Scan([u] + rest, inString, depth) == Stuck
  {
    assert ([u] + rest)[1..] == rest;
  }

  lemma ScanQuoted(t: Text, rest: Text, depth: int)
    ensures Scan(Quote(t) + rest, false, depth) == Scan(rest, false, depth)
  {
    hide Scan, Escape;
    assert Quote(t) + rest == [QUOTE] + (Escape(t) + ([QUOTE] + rest));
    ScanStep(QUOTE, Escape(t) + ([QUOTE] + rest), false, depth);
    ScanEscaped(t, [QUOTE] + rest, depth);
    ScanStep(QUOTE, rest, true, depth);
  }

  lemma ScalarIsOrdinary(v: Json)
    requires !v.Str? && !v.Arr? && !v.Obj?
    ensures forall k :: 0 <= k < |Print(v)| ==> Ordinary(Print(v)[k])
  {
  }

  /** Reading a printed value leads back to where it started. */
  lemma {:induction false} ScanPrinted(v: Json, rest: Text, depth: nat)
    ensures Scan(Print(v) + rest, false, depth) == Scan(rest, false, depth)
    decreases v, 0
  {
    hide Scan, Quote, PrintItems, PrintMembers, Ordinary;
    match v
    case Str(t) => ScanQuoted(t, rest, depth);
    case Arr(items) =>
      var tail := [CLOSE_BRACKET] + rest;
      assert Print(v) + rest == [OPEN_BRACKET] + (PrintItems(items) + tail);
      ScanStep(OPEN_BRACKET, PrintItems(items) + tail, false, depth);
      ScanItems(items, tail, depth + 1);
      ScanStep(CLOSE_BRACKET, rest, false, depth + 1);
    case Obj(members) =>
      var tail := [CLOSE_BRACE] + rest;
      assert Print(v) + rest == [OPEN_BRACE] + (PrintMembers(members) + tail);
      ScanStep(OPEN_BRACE, PrintMembers(members) + tail, false, depth);
      ScanMembers(members, tail, depth + 1);
      ScanStep(CLOSE_BRACE, rest, false, depth + 1);
    case _ =>
      ScalarIsOrdinary(v);
      ScanOrdinary(Print(v), rest, false, depth);
  }

  lemma {:induction false} ScanItems(items: seq<Json>, rest: Text, depth: nat)
    ensures Scan(PrintItems(items) + rest, false, depth) == Scan(rest, false, depth)
    decreases items, 1
  {
    hide Scan, Print;
    if items == [] {
      assert PrintItems(items) + rest == rest;
    } else if |items| == 1 {
      ScanPrinted(items[0], rest, depth);
    } else {
      var tail := PrintItems(items[1..]) + rest;
      assert PrintItems(items) + rest == Print(items[0]) + ([COMMA] + tail);
      ScanPrinted(items[0], [COMMA] + tail, depth);
      ScanStep(COMMA, tail, false, depth);
      ScanItems(items[1..], rest, depth);
    }
  }

  lemma ScanMember(m: Member, rest: Text, depth: nat)
    requires depth > 0
    ensures Scan(PrintMember(m) + rest, false, depth) == Scan(rest, false, depth)
    decreases m, 1
  {
    hide Scan, Print, Quote;
    var tail := Print(m.value) + rest;
    assert PrintMember(m) + rest == Quote(m.key) + ([COLON] + tail);
    ScanQuoted(m.key, [COLON] + tail, depth);
    ScanStep(COLON, tail, false, depth);
    ScanPrinted(m.value, rest, depth);
  }

  lemma {:induction false} ScanMembers(members: seq<Member>, rest: Text, depth: nat)
    requires depth > 0
    ensures Scan(PrintMembers(members) + rest, false, depth) == Scan(rest, false, depth)
    decreases members, 2
  {
    hide Scan, PrintMember;
    if members == [] {
      assert PrintMembers(members) + rest == rest;
    } else if |members| == 1 {
      ScanMember(members[0], rest, depth);
    } else {
      var tail := PrintMembers(members[1..]) + rest;
      assert PrintMembers(members) + rest == PrintMember(members[0]) + ([COMMA] + tail);
      ScanMember(members[0], [COMMA] + tail, depth);
      ScanStep(COMMA, tail, false, depth);
      ScanMembers(members[1..], rest, depth);
    }
  }

  lemma ScanPrintedWhole(v: Json)
    ensures Scan(Print(v), false, 0) == At(false, 0)
  {
    hide Print;
    ScanPrinted(v, [], 0);
    assert Print(v) + [] == Print(v);
  }

  // ---- No printed value right after a colon inside a printed value reaches its end ----

  /** Reading up to a colon ends in some position, and goes on from there. */
  lemma {:induction false} ScanToColon(x: Text, y: Text, inString: bool, depth: int) returns (r: Reading)
    requires Scan(x + [COLON] + y, inString, depth).At?
    ensures r.At? && Scan(x + [COLON] + y, inString, depth) == Scan([COLON] + y, r.inString, r.depth)
    decreases |x|
  {
    var s := x + [COLON] + y;
    assert s[|x|] == COLON;
    if x == [] {
      assert s == [COLON] + y;
      r := At(inString, depth);
    } else {
      assert s[1..] == x[1..] + [COLON] + y;
      if inString && x[0] == BACKSLASH {
        assert s[2..] == x[2..] + [COLON] + y;
        r := ScanToColon(x[2..], y, true, depth);
      } else if x[0] == QUOTE {
        r := ScanToColon(x[1..], y, !inString, depth);
      } else if !inString && (x[0] == OPEN_BRACKET || x[0] == OPEN_BRACE) {
        r := ScanToColon(x[1..], y, false, depth + 1);
      } else if !inString && (x[0] == CLOSE_BRACKET || x[0] == CLOSE_BRACE) {
        r := ScanToColon(x[1..], y, false, depth - 1);
      } else {
        r := ScanToColon(x[1..], y, inString, depth);
      }
    }
  }

  /** Quote parity: the same text read from inside and from outside a string ends on opposite sides. */
  lemma {:induction false} QuoteParity(y: Text, d: int, e: int)
    requires Scan(y, true, d).At? && Scan(y, false, e).At?
    ensures Scan(y, true, d).inString != Scan(y, false, e).inString
    decreases |y|
  {
    if y != [] {
      if y[0] == QUOTE {
        QuoteParity(y[1..], e, d);
      } else {
        var e' := if y[0] == OPEN_BRACKET || y[0] == OPEN_BRACE then e + 1
                  else if y[0] == CLOSE_BRACKET || y[0] == CLOSE_BRACE then e - 1 else e;
        QuoteParity(y[1..], d, e');
      }
    }
  }

  /** Bracket depth: starting deeper ends as much deeper. */
  lemma {:induction false} DepthShift(y: Text, inString: bool, d: int, k: nat)
    requires Scan(y, inString, d).At?
    ensures Scan(y, inString, d + k) == At(Scan(y, inString, d).inString, Scan(y, inString, d).depth + k)
    decreases |y|
  {
    if y != [] {
      if inString && y[0] == BACKSLASH {
        DepthShift(y[2..], true, d, k);
      } else if y[0] == QUOTE {
        DepthShift(y[1..], !inString, d, k);
      } else if !inString && (y[0] == OPEN_BRACKET || y[0] == OPEN_BRACE) {
        DepthShift(y[1..], false, d + 1, k);
      } else if !inString && (y[0] == CLOSE_BRACKET || y[0] == CLOSE_BRACE) {
        DepthShift(y[1..], false, d - 1, k);
      } else {
        DepthShift(y[1..], inString, d, k);
      }
    }
  }

  lemma NoValueAfterColon(x: Text, v: Json, w: Json)
    ensures Print(v) != x + [COLON] + Print(w)
  {
    hide Scan, Print;
    if Print(v) == x + [COLON] + Print(w) {
      ScanPrintedWhole(v);
      ScanPrintedWhole(w);
      var r := ScanToColon(x, Print(w), false, 0);
      ScanStep(COLON, Print(w), r.inString, r.depth);
      if r.inString {
        QuoteParity(Print(w), r.depth, 0);
      } else {
        DepthShift(Print(w), false, 0, r.depth);
      }
      assert false;
    }
  }

  lemma ShorterPath(p: Text, v: Json, q: Text, w: Json)
    requires p + [COLON] + Print(v) == q + [COLON] + Print(w)
    ensures |p| >= |q|
  {
    hide Print;
    if |p| < |q| {
      var s := q + [COLON] + Print(w);
      var x := q[|p| + 1..];
      assert s[|p| + 1..] == x + [COLON] + Print(w);
      assert (p + [COLON] + Print(v))[|p| + 1..] == Print(v);
      NoValueAfterColon(x, v, w);
    }
  }

  /** A path, colons and all, and the printed body after it can be told apart. */
  lemma PathAndBody(p: Text, v: Json, q: Text, w: Json)
    requires p + [COLON] + Print(v) == q + [COLON] + Print(w)
    ensures p == q && Print(v) == Print(w)
  {
    hide Print;
    ShorterPath(p, v, q, w);
    ShorterPath(q, w, p, v);
    var s, t := p + [COLON] + Print(v), q + [COLON] + Print(w);
    assert p == s[..|p|] == t[..|q|] == q;
    assert Print(v) == s[|p| + 1..] == t[|q| + 1..] == Print(w);
  }

  lemma NotShorter(m: Text, r: Text, n: Text, t: Text)
    requires NoColon(n) && m + [COLON] + r == n + [COLON] + t
    ensures |m| >= |n|
  {
    var s := n + [COLON] + t;
    assert (m + [COLON] + r)[|m|] == COLON;
    assert forall k :: 0 <= k < |n| ==> s[k] == n[k];
  }

  lemma VerbFirst(m: Text, r: Text, n: Text, t: Text)
    requires NoColon(m) && NoColon(n) && m + [COLON] + r == n + [COLON] + t
    ensures m == n && r == t
  {
    var s, u := m + [COLON] + r, n + [COLON] + t;
    NotShorter(m, r, n, t);
    NotShorter(n, t, m, r);
    assert m == s[..|m|] == u[..|n|] == n;
    assert r == s[|m| + 1..] == u[|n| + 1..] == t;
  }

  /** Fingerprints agree exactly when method, path and canonical body agree. */
  lemma PayloadInjective(m: Text, p: Text, b: Json, n: Text, q: Text, c: Json)
    requires NoColon(m) && NoColon(n)
    ensures Payload(m, p, b) == Payload(n, q, c) <==>
            m == n && p == q && Canon(BodyOrEmpty(b)) == Canon(BodyOrEmpty(c))
  {
    hide Print, Canon, StableStringify;
    var v, w := BodyOrEmpty(b), BodyOrEmpty(c);
    StablePrintsCanon(v);
    StablePrintsCanon(w);
    StableStringifyInjective(v, w);
    if Payload(m, p, b) == Payload(n, q, c) {
      assert Payload(m, p, b) == m + [COLON] + (p + [COLON] + Print(Canon(v)));
      assert Payload(n, q, c) == n + [COLON] + (q + [COLON] + Print(Canon(w)));
      VerbFirst(m, p + [COLON] + Print(Canon(v)), n, q + [COLON] + Print(Canon(w)));
      PathAndBody(p, Canon(v), q, Canon(w));
    }
  }

  // ---- Which bodies count as the same ----

  /** A body that the request does not have. */
  predicate Missing(b: Json) {
    b.Undefined? || b.Null?
  }

  /** The same value up to the order of members; a missing body is the same as `{}`. */
  predicate SameBody(b: Json, c: Json) {
    if Missing(b) then Missing(c) || c == Obj([])
    else if Missing(c) then b == Obj([])
    else Same(b, c)
  }

  lemma OnlyEmptyIsEmpty(c: Json)
    ensures Canon(c) == Canon(Obj([])) <==> c == Obj([])
  {
    if c.Obj? {
      InSorted(c);
      InSorted(Obj([]));
      var sorted := SortKeys(c.members);
      assert |multiset(sorted)| == |sorted| && |multiset(c.members)| == |c.members|;
    }
  }

  lemma CanonBodies(b: Json, c: Json)
    requires WellFormed(b) && WellFormed(c)
    ensures Canon(BodyOrEmpty(b)) == Canon(BodyOrEmpty(c)) <==> SameBody(b, c)
  {
    hide Canon, Same, WellFormed;
    OnlyEmptyIsEmpty(b);
    OnlyEmptyIsEmpty(c);
    if !Missing(b) && !Missing(c) {
      if Same(b, c) {
        SameIsCanonEqual(b, c);
      }
      if Canon(b) == Canon(c) {
        CanonEqualIsSame(b, c);
      }
    }
  }

  /** Fingerprints agree exactly when the methods, the paths and the bodies do. */
  lemma PayloadsAgreeIff(m: Text, p: Text, b: Json, n: Text, q: Text, c: Json)
    requires NoColon(m) && NoColon(n) && WellFormed(b) && WellFormed(c)
    ensures Payload(m, p, b) == Payload(n, q, c) <==> m == n && p == q && SameBody(b, c)
  {
    hide Payload, Canon, WellFormed, SameBody, BodyOrEmpty, NoColon;
    PayloadInjective(m, p, b, n, q, c);
    CanonBodies(b, c);
  }
}
