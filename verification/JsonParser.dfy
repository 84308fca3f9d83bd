/** A JSON parser (RFC 8259 without insignificant white space), and that it undoes the printer. */
module JsonParser {
  import opened Json

  datatype Parse<T> = Fail | Parsed(value: T, rest: Text)

  function HexValue(u: Unit): (r: int)
    ensures -1 <= r < 16
  {
    if 48 <= u <= 57 then u - 48
    else if 97 <= u <= 102 then u - 87
    else if 65 <= u <= 70 then u - 55
    else -1
  }

  /** The unit after a backslash, with what follows it. */
  function ParseEscape(s: Text): (r: Parse<Unit>)
    ensures r.Parsed? ==> |r.rest| < |s|
  {
    if s == [] then Fail
    else if s[0] == QUOTE || s[0] == BACKSLASH || s[0] == 47 then Parsed(s[0], s[1..])
    else if s[0] == 98 then Parsed(8, s[1..])
    else if s[0] == 116 then Parsed(9, s[1..])
    else if s[0] == 110 then Parsed(10, s[1..])
    else if s[0] == 102 then Parsed(12, s[1..])
    else if s[0] == 114 then Parsed(13, s[1..])
    else if s[0] == 117 && |s| >= 5 && forall k :: 1 <= k <= 4 ==> HexValue(s[k]) >= 0 then
      Parsed(HexValue(s[1]) * 4096 + HexValue(s[2]) * 256 + HexValue(s[3]) * 16 + HexValue(s[4]), s[5..])
    else Fail
  }

  /** A string whose opening quote has been read. */
  function ParseString(s: Text): (r: Parse<Text>)
    ensures r.Parsed? ==> |r.rest| < |s|
    decreases |s|
  {
    if s == [] || s[0] < 32 then Fail
    else if s[0] == QUOTE then Parsed([], s[1..])
    else if s[0] == BACKSLASH then
      match ParseEscape(s[1..])
      case Fail => Fail
      case Parsed(u, rest) =>
        (match ParseString(rest)
         case Fail => Fail
         case Parsed(t, rest') => Parsed([u] + t, rest'))
    else
      match ParseString(s[1..])
      case Fail => Fail
      case Parsed(t, rest) => Parsed([s[0]] + t, rest)
  }

  function NumeralRun(s: Text): (n: nat)
    ensures n <= |s|
  {
    if s == [] || !NumeralUnit(s[0]) then 0 else 1 + NumeralRun(s[1..])
  }

  predicate Begins(s: Text, prefix: Text) {
    prefix <= s
  }

  function ParseValue(s: Text): (r: Parse<Json>)
    ensures r.Parsed? ==> |r.rest| < |s|
    decreases |s|, 0
  {
    if s == [] then Fail
    else if s[0] == QUOTE then
      match ParseString(s[1..])
      case Fail => Fail
      case Parsed(t, rest) => Parsed(Str(t), rest)
    else if s[0] == OPEN_BRACKET then
      if |s| > 1 && s[1] == CLOSE_BRACKET then Parsed(Arr([]), s[2..])
      else
        match ParseItems(s[1..])
        case Fail => Fail
        case Parsed(items, rest) => Parsed(Arr(items), rest)
    else if s[0] == OPEN_BRACE then
      if |s| > 1 && s[1] == CLOSE_BRACE then Parsed(Obj([]), s[2..])
      else
        match ParseMembers(s[1..])
        case Fail => Fail
        case Parsed(members, rest) => Parsed(Obj(members), rest)
    else if Begins(s, NULL_TEXT) then Parsed(Null, s[4..])
    else if Begins(s, TRUE_TEXT) then Parsed(Bool(true), s[4..])
    else if Begins(s, FALSE_TEXT) then Parsed(Bool(false), s[5..])
    else
      var n := NumeralRun(s);
      if IsNumeral(s[..n]) then Parsed(Number(s[..n]), s[n..]) else Fail
  }

  /** One or more values separated by commas, up to the closing bracket. */
  function ParseItems(s: Text): (r: Parse<seq<Json>>)
    ensures r.Parsed? ==> |r.rest| < |s|
    decreases |s|, 1
  {
    match ParseValue(s)
    case Fail => Fail
    case Parsed(v, rest) =>
      if rest != [] && rest[0] == CLOSE_BRACKET then Parsed([v], rest[1..])
      else if rest != [] && rest[0] == COMMA then
        match ParseItems(rest[1..])
        case Fail => Fail
        case Parsed(vs, rest') => Parsed([v] + vs, rest')
      else Fail
  }

  function ParseMember(s: Text): (r: Parse<Member>)
    ensures r.Parsed? ==> |r.rest| < |s|
    decreases |s|, 0
  {
    if s == [] || s[0] != QUOTE then Fail
    else
      match ParseString(s[1..])
      case Fail => Fail
      case Parsed(key, rest) =>
        if rest == [] || rest[0] != COLON then Fail
        else
          match ParseValue(rest[1..])
          case Fail => Fail
          case Parsed(v, rest') => Parsed(Member(key, v), rest')
  }

  function ParseMembers(s: Text): (r: Parse<seq<Member>>)
    ensures r.Parsed? ==> |r.rest| < |s|
    decreases |s|, 1
  {
    match ParseMember(s)
    case Fail => Fail
    case Parsed(m, rest) =>
      if rest != [] && rest[0] == CLOSE_BRACE then Parsed([m], rest[1..])
      else if rest != [] && rest[0] == COMMA then
        match ParseMembers(rest[1..])
        case Fail => Fail
        case Parsed(ms, rest') => Parsed([m] + ms, rest')
      else Fail
  }

  // ---- Strings ----

  lemma HexRoundTrip(u: Unit)
    ensures var h := Hex4(u);
            && (forall k :: 0 <= k < 4 ==> HexValue(h[k]) >= 0)
            && HexValue(h[0]) * 4096 + HexValue(h[1]) * 256 + HexValue(h[2]) * 16 + HexValue(h[3]) == u
  {
    assert forall n :: 0 <= n < 16 ==> HexValue(HexDigit(n)) == n;
    assert u / 256 == u / 4096 * 16 + u / 256 % 16;
    assert u / 16 == u / 256 * 16 + u / 16 % 16;
    assert u == u / 16 * 16 + u % 16;
  }

  lemma HexParses(u: Unit, s: Text)
    ensures ParseEscape([117] + Hex4(u) + s) == Parsed(u, s)
  {
    hide HexValue;
    HexRoundTrip(u);
    var h := Hex4(u);
    var f := [117] + h + s;
    assert f[5..] == s;
    assert f[1] == h[0] && f[2] == h[1] && f[3] == h[2] && f[4] == h[3];
  }

  /** What the escape of a unit reads back as, once its backslash has been read. */
  lemma EscapeParses(u: Unit, s: Text)
    ensures EscapeUnit(u) != []
    ensures if EscapeUnit(u)[0] == BACKSLASH then ParseEscape(EscapeUnit(u)[1..] + s) == Parsed(u, s)
            else EscapeUnit(u) == [u] && u >= 32 && u != QUOTE
  {
    hide Hex4;
    var e := EscapeUnit(u);
    HexParses(u, s);
    if |e| == 2 {
      assert (e[1..] + s)[1..] == s;
    } else if |e| > 2 {
      assert e[1..] + s == [117] + Hex4(u) + s;
    }
  }

  lemma ParseOneUnit(u: Unit, s: Text)
    requires u >= 32 && u != QUOTE && u != BACKSLASH
    ensures ParseString([u] + s) == match ParseString(s)
                                    case Fail => Fail
                                    case Parsed(t, rest) => Parsed([u] + t, rest)
  {
    assert ([u] + s)[1..] == s;
  }

  lemma ParseOneEscape(e: Text, u: Unit, s: Text)
    requires ParseEscape(e) == Parsed(u, s)
    ensures ParseString([BACKSLASH] + e) == match ParseString(s)
                                            case Fail => Fail
                                            case Parsed(t, rest) => Parsed([u] + t, rest)
  {
    hide ParseEscape;
    assert ([BACKSLASH] + e)[1..] == e;
  }

  /** A text that starts with an escaped unit parses to that unit first. */
  lemma ParseEscaped(u: Unit, s: Text)
    requires ParseString(s).Parsed?
    ensures ParseString(EscapeUnit(u) + s) == Parsed([u] + ParseString(s).value, ParseString(s).rest)
  {
    hide ParseString, ParseEscape, EscapeUnit;
    var e := EscapeUnit(u);
    EscapeParses(u, s);
    if e[0] == BACKSLASH {
      ParseOneEscape(e[1..] + s, u, s);
      assert [BACKSLASH] + (e[1..] + s) == e + s;
    } else {
      ParseOneUnit(u, s);
    }
  }

  lemma ParseClosingQuote(rest: Text)
    ensures ParseString([QUOTE] + rest) == Parsed([], rest)
  {
    assert ([QUOTE] + rest)[1..] == rest;
  }

  lemma {:induction false} StringRoundTrip(t: Text, rest: Text)
    ensures ParseString(Escape(t) + [QUOTE] + rest) == Parsed(t, rest)
    decreases |t|
  {
    hide ParseString, EscapeUnit;
    if t == [] {
      ParseClosingQuote(rest);
      assert [] + [QUOTE] + rest == [QUOTE] + rest;
    } else if IsHigh(t[0]) && |t| > 1 && IsLow(t[1]) {
      StringRoundTrip(t[2..], rest);
      var s := Escape(t[2..]) + [QUOTE] + rest;
      ParseOneUnit(t[1], s);
      ParseOneUnit(t[0], [t[1]] + s);
      assert Escape(t) + [QUOTE] + rest == [t[0]] + ([t[1]] + s);
      assert t == [t[0]] + ([t[1]] + t[2..]);
    } else {
      StringRoundTrip(t[1..], rest);
      var s := Escape(t[1..]) + [QUOTE] + rest;
      ParseEscaped(t[0], s);
      assert Escape(t) + [QUOTE] + rest == EscapeUnit(t[0]) + s;
      assert t == [t[0]] + t[1..];
    }
  }

  // ---- Values ----

  /** No `undefined` anywhere: what JSON text can denote. */
  predicate Defined(value: Json) {
    match value
    case Undefined => false
    case Arr(items) => DefinedItems(items)
    case Obj(members) => DefinedMembers(members)
    case _ => true
  }

  predicate DefinedItems(items: seq<Json>) {
    items != [] ==> Defined(items[0]) && DefinedItems(items[1..])
  }

  predicate DefinedMembers(members: seq<Member>) {
    members != [] ==> Defined(members[0].value) && DefinedMembers(members[1..])
  }

  /** What follows a value does not run on from a numeral. */
  predicate Ends(rest: Text) {
    rest == [] || !NumeralUnit(rest[0])
  }

  lemma {:induction false} NumeralRunExact(t: Text, rest: Text)
    requires forall k :: 0 <= k < |t| ==> NumeralUnit(t[k])
    requires Ends(rest)
    ensures NumeralRun(t + rest) == |t|
  {
    if t == [] {
      assert t + rest == rest;
    } else {
      assert (t + rest)[1..] == t[1..] + rest;
      NumeralRunExact(t[1..], rest);
    }
  }

  /** A printed value starts neither like the end of an array or object nor with white space. */
  lemma PrintStarts(v: Json)
    ensures Print(v) != [] && Print(v)[0] != CLOSE_BRACKET && Print(v)[0] != CLOSE_BRACE
  {
  }

  lemma ScalarRoundTrip(v: Json, rest: Text)
    requires Defined(v) && !v.Arr? && !v.Obj? && Ends(rest)
    ensures ParseValue(Print(v) + rest) == Parsed(v, rest)
  {
    hide ParseString, Escape, NumeralRun;
    var s := Print(v) + rest;
    match v
    case Null => assert s[4..] == rest;
    case Bool(b) => assert s[if b then 4 else 5..] == rest;
    case Number(t) =>
      NumeralRunExact(t, rest);
      assert s[..|t|] == t && s[|t|..] == rest;
    case Str(t) =>
      assert s[1..] == Escape(t) + [QUOTE] + rest;
      StringRoundTrip(t, rest);
  }

  lemma ParseArray(s: Text)
    requires s != [] && s[0] != CLOSE_BRACKET && ParseItems(s).Parsed?
    ensures ParseValue([OPEN_BRACKET] + s) == Parsed(Arr(ParseItems(s).value), ParseItems(s).rest)
  {
    hide ParseItems;
    assert ([OPEN_BRACKET] + s)[1..] == s && ([OPEN_BRACKET] + s)[1] == s[0];
  }

  lemma ParseObject(s: Text)
    requires s != [] && s[0] != CLOSE_BRACE && ParseMembers(s).Parsed?
    ensures ParseValue([OPEN_BRACE] + s) == Parsed(Obj(ParseMembers(s).value), ParseMembers(s).rest)
  {
    hide ParseMembers;
    assert ([OPEN_BRACE] + s)[1..] == s && ([OPEN_BRACE] + s)[1] == s[0];
  }

  lemma ParseEmpty(rest: Text)
    ensures ParseValue([OPEN_BRACKET, CLOSE_BRACKET] + rest) == Parsed(Arr([]), rest)
    ensures ParseValue([OPEN_BRACE, CLOSE_BRACE] + rest) == Parsed(Obj([]), rest)
  {
    assert ([OPEN_BRACKET, CLOSE_BRACKET] + rest)[2..] == rest;
    assert ([OPEN_BRACE, CLOSE_BRACE] + rest)[2..] == rest;
  }

  lemma {:induction false} ValueRoundTrip(v: Json, rest: Text)
    requires Defined(v) && Ends(rest)
    ensures ParseValue(Print(v) + rest) == Parsed(v, rest)
    decreases v, 0
  {
    hide ParseValue, ParseItems, ParseMembers, PrintItems, PrintMembers;
    if v.Arr? {
      if v.items == [] {
        PrintNothing();
        ParseEmpty(rest);
        assert Print(v) == [OPEN_BRACKET, CLOSE_BRACKET];
      } else {
        ItemsRoundTrip(v.items, rest);
        var s := PrintItems(v.items) + [CLOSE_BRACKET] + rest;
        ParseArray(s);
        assert Print(v) + rest == [OPEN_BRACKET] + s;
      }
    } else if v.Obj? {
      if v.members == [] {
        PrintNothing();
        ParseEmpty(rest);
        assert Print(v) == [OPEN_BRACE, CLOSE_BRACE];
      } else {
        MembersRoundTrip(v.members, rest);
        var s := PrintMembers(v.members) + [CLOSE_BRACE] + rest;
        ParseObject(s);
        assert Print(v) + rest == [OPEN_BRACE] + s;
      }
    } else {
      ScalarRoundTrip(v, rest);
    }
  }

  lemma PrintNothing()
    ensures PrintItems([]) == [] && PrintMembers([]) == []
  {
  }

  lemma ParseItemsStep(s: Text, v: Json, tail: Text)
    requires ParseValue(s) == Parsed(v, tail) && tail != []
    ensures tail[0] == CLOSE_BRACKET ==> ParseItems(s) == Parsed([v], tail[1..])
    ensures tail[0] == COMMA && ParseItems(tail[1..]).Parsed? ==>
              ParseItems(s) == Parsed([v] + ParseItems(tail[1..]).value, ParseItems(tail[1..]).rest)
  {
    hide ParseValue;
  }

  lemma PrintItemsStep(items: seq<Json>)
    requires items != []
    ensures PrintItems(items) ==
            if |items| == 1 then Print(items[0]) else Print(items[0]) + [COMMA] + PrintItems(items[1..])
  {
  }

  lemma {:induction false} ItemsRoundTrip(items: seq<Json>, rest: Text)
    requires items != [] && DefinedItems(items)
    ensures ParseItems(PrintItems(items) + [CLOSE_BRACKET] + rest) == Parsed(items, rest)
    ensures PrintItems(items) != [] && PrintItems(items)[0] != CLOSE_BRACKET
    decreases items, 1
  {
    hide ParseValue, ParseItems, Print, PrintItems;
    var s := PrintItems(items) + [CLOSE_BRACKET] + rest;
    PrintStarts(items[0]);
    PrintItemsStep(items);
    if |items| == 1 {
      var tail := [CLOSE_BRACKET] + rest;
      assert s == Print(items[0]) + tail && tail[1..] == rest;
      ValueRoundTrip(items[0], tail);
      ParseItemsStep(s, items[0], tail);
      assert items == [items[0]];
    } else {
      var more := PrintItems(items[1..]) + [CLOSE_BRACKET] + rest;
      var tail := [COMMA] + more;
      assert s == Print(items[0]) + tail && tail[1..] == more;
      ValueRoundTrip(items[0], tail);
      ItemsRoundTrip(items[1..], rest);
      ParseItemsStep(s, items[0], tail);
      assert items == [items[0]] + items[1..];
    }
  }

  lemma MemberRoundTrip(m: Member, rest: Text)
    requires Defined(m.value) && Ends(rest)
    ensures ParseMember(PrintMember(m) + rest) == Parsed(m, rest)
    ensures PrintMember(m) != [] && PrintMember(m)[0] == QUOTE
    decreases m, 1
  {
    hide ParseString, Escape, ParseValue, Print;
    var s := PrintMember(m) + rest;
    var tail := [COLON] + (Print(m.value) + rest);
    assert s[1..] == Escape(m.key) + [QUOTE] + tail;
    StringRoundTrip(m.key, tail);
    assert tail[1..] == Print(m.value) + rest;
    ValueRoundTrip(m.value, rest);
  }

  lemma {:induction false} MembersRoundTrip(members: seq<Member>, rest: Text)
    requires members != [] && DefinedMembers(members)
    ensures ParseMembers(PrintMembers(members) + [CLOSE_BRACE] + rest) == Parsed(members, rest)
    ensures PrintMembers(members) != [] && PrintMembers(members)[0] == QUOTE
    decreases members, 2
  {
    hide ParseMember, PrintMember;
    var s := PrintMembers(members) + [CLOSE_BRACE] + rest;
    if |members| == 1 {
      var tail := [CLOSE_BRACE] + rest;
      assert s == PrintMember(members[0]) + tail && tail[1..] == rest;
      MemberRoundTrip(members[0], tail);
      assert members == [members[0]];
    } else {
      var tail := [COMMA] + (PrintMembers(members[1..]) + [CLOSE_BRACE] + rest);
      assert s == PrintMember(members[0]) + tail;
      MemberRoundTrip(members[0], tail);
      assert tail[1..] == PrintMembers(members[1..]) + [CLOSE_BRACE] + rest;
      MembersRoundTrip(members[1..], rest);
      assert members == [members[0]] + members[1..];
    }
  }

  lemma {:induction false} CanonDefined(value: Json)
    ensures Defined(Canon(value))
    decreases value, 1, 0
  {
    match value
    case Arr(items) => CanonItemsDefined(value, items);
    case Obj(members) =>
      InSorted(value);
      CanonMembersDefined(value, SortKeys(members));
    case _ =>
  }

  lemma {:induction false} CanonItemsDefined(ctx: Json, items: seq<Json>)
    requires forall k :: 0 <= k < |items| ==> items[k] < ctx
    ensures DefinedItems(CanonItems(ctx, items))
    decreases ctx, 0, |items|
  {
    if items != [] {
      CanonDefined(items[0]);
      CanonItemsDefined(ctx, items[1..]);
      assert CanonItems(ctx, items)[1..] == CanonItems(ctx, items[1..]);
    }
  }

  lemma {:induction false} CanonMembersDefined(ctx: Json, members: seq<Member>)
    requires forall m :: m in members ==> m.value < ctx
    ensures DefinedMembers(CanonMembers(ctx, members))
    decreases ctx, 0, |members|
  {
    if members != [] {
      CanonDefined(members[0].value);
      CanonMembersDefined(ctx, members[1..]);
      assert CanonMembers(ctx, members)[1..] == CanonMembers(ctx, members[1..]);
    }
  }

  /** Parsing what `stableStringify` printed gives the value with its members in key order. */
  lemma StableStringifyRoundTrip(value: Json)
    ensures ParseValue(StableStringify(value)) == Parsed(Canon(value), [])
  {
    hide ParseValue, Print, StableStringify, Canon;
    StablePrintsCanon(value);
    CanonDefined(value);
    ValueRoundTrip(Canon(value), []);
    assert Print(Canon(value)) + [] == Print(Canon(value));
  }

  /** Two values print alike exactly when they are equal after their keys are sorted. */
  lemma StableStringifyInjective(v: Json, w: Json)
    ensures StableStringify(v) == StableStringify(w) <==> Canon(v) == Canon(w)
  {
    hide ParseValue, Print, StableStringify, Canon;
    StableStringifyRoundTrip(v);
    StableStringifyRoundTrip(w);
    StablePrintsCanon(v);
    StablePrintsCanon(w);
  }
}
