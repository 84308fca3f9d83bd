/**
 JSON values as `express.json()` hands them to a route, and `stableStringify` of src/platform/idempotency.ts.

 A string is the sequence of its UTF-16 code units, so that lone surrogates exist and keys sort the way
 `Array.prototype.sort` sorts them. A number is the numeral it prints as.
 */
module Json {
  import opened Sorting

  type Unit = n: int | 0 <= n < 0x10000

  type Text = seq<Unit>

  /** The code units of an ASCII text. */
  function Units(s: string): (t: Text)
    requires forall k :: 0 <= k < |s| ==> s[k] < 128 as char
    ensures |t| == |s| && forall k :: 0 <= k < |t| ==> t[k] == s[k] as int
  {
    seq(|s|, k requires 0 <= k < |s| => s[k] as int)
  }

  const QUOTE: Unit := 34
  const COMMA: Unit := 44
  const COLON: Unit := 58
  const BACKSLASH: Unit := 92
  const OPEN_BRACKET: Unit := 91
  const CLOSE_BRACKET: Unit := 93
  const OPEN_BRACE: Unit := 123
  const CLOSE_BRACE: Unit := 125
  const NULL_TEXT: Text := [110, 117, 108, 108]    // null
  const TRUE_TEXT: Text := [116, 114, 117, 101]    // true
  const FALSE_TEXT: Text := [102, 97, 108, 115, 101]    // false

  /** A unit that occurs in a JSON numeral: a digit, a sign, a point or an exponent mark. */
  predicate NumeralUnit(u: Unit) {
    48 <= u <= 57 || u == 43 || u == 45 || u == 46 || u == 69 || u == 101
  }

  predicate IsNumeral(t: Text) {
    t != [] && (48 <= t[0] <= 57 || t[0] == 45) && forall k :: 0 <= k < |t| ==> NumeralUnit(t[k])
  }

  type Numeral = t: Text | IsNumeral(t) witness [48]

  datatype Member = Member(key: Text, value: Json)

  datatype Json =
    | Undefined
    | Null
    | Bool(b: bool)
    | Number(numeral: Numeral)
    | Str(text: Text)
    | Arr(items: seq<Json>)
    | Obj(members: seq<Member>)

  // ---- Strings ----

  predicate IsHigh(u: Unit) {
    0xD800 <= u < 0xDC00
  }

  predicate IsLow(u: Unit) {
    0xDC00 <= u < 0xE000
  }

  /** A lower-case hexadecimal digit. */
  function HexDigit(n: int): Unit
    requires 0 <= n < 16
  {
    if n < 10 then 48 + n else 87 + n
  }

  function Hex4(u: Unit): (t: Text)
    ensures |t| == 4
  {
    [HexDigit(u / 4096), HexDigit(u / 256 % 16), HexDigit(u / 16 % 16), HexDigit(u % 16)]
  }

  function EscapeUnit(u: Unit): Text {
    if u == QUOTE || u == BACKSLASH then [BACKSLASH, u]
    else if u == 8 then [BACKSLASH, 98]
    else if u == 9 then [BACKSLASH, 116]
    else if u == 10 then [BACKSLASH, 110]
    else if u == 12 then [BACKSLASH, 102]
    else if u == 13 then [BACKSLASH, 114]
    else if u < 32 || IsHigh(u) || IsLow(u) then [BACKSLASH, 117] + Hex4(u)
    else [u]
  }

  /** The inside of the quotes that `JSON.stringify` prints: a surrogate pair stays, a lone surrogate is escaped. */
  function Escape(t: Text): Text {
    if t == [] then []
    else if IsHigh(t[0]) && |t| > 1 && IsLow(t[1]) then t[..2] + Escape(t[2..])
    else EscapeUnit(t[0]) + Escape(t[1..])
  }

  function Quote(t: Text): Text {
    [QUOTE] + Escape(t) + [QUOTE]
  }

  lemma HexDigits()
    ensures Units("0123456789abcdef") == seq(16, n requires 0 <= n < 16 => HexDigit(n))
  {
  }

  /** The texts of the literals, and the short escapes. */
  lemma LiteralsAndEscapes()
    ensures NULL_TEXT == Units("null") && TRUE_TEXT == Units("true") && FALSE_TEXT == Units("false")
    ensures Escape(Units("\n\r\t\"\\")) == Units("\\n\\r\\t\\\"\\\\")
    ensures Escape([8, 12]) == Units("\\b\\f")
  {
    var t := Units("\n\r\t\"\\");
    assert t == [10, 13, 9, 34, 92];
    assert Escape([92]) == [92, 92];
    assert t[1..] == [13, 9, 34, 92] && t[1..][1..] == [9, 34, 92] && t[1..][1..][1..] == [34, 92];
    assert [34, 92][1..] == [92];
  }

  /** Any other control character and a lone surrogate come as `u` with its four digits. */
  lemma OtherEscapes(u: Unit)
    requires (u < 32 && u !in {8, 9, 10, 12, 13}) || IsHigh(u) || IsLow(u)
    ensures Escape([u]) == Units("\\u") + Hex4(u)
  {
    assert Escape([u]) == EscapeUnit(u) + Escape([]);
  }

  /** Every other unit, and a surrogate pair, is printed as it is. */
  lemma PlainUnits(u: Unit, high: Unit, low: Unit)
    requires u >= 32 && u != QUOTE && u != BACKSLASH && !IsHigh(u) && !IsLow(u)
    requires IsHigh(high) && IsLow(low)
    ensures Escape([u]) == [u] && Escape([high, low]) == [high, low]
  {
    assert Escape([u]) == EscapeUnit(u) + Escape([]);
    assert Escape([high, low]) == [high, low] + Escape([]);
  }

  // ---- Key order ----

  /** Code-unit order, the default order of `sort()`. */
  predicate TextLe(a: Text, b: Text) {
    a == [] || (b != [] && (a[0] < b[0] || (a[0] == b[0] && TextLe(a[1..], b[1..]))))
  }

  const KEY_LE: (Member, Member) -> bool := (a: Member, b: Member) => TextLe(a.key, b.key)

  function SortKeys(members: seq<Member>): (r: seq<Member>)
    ensures multiset(r) == multiset(members)
  {
    Sort(members, KEY_LE)
  }

  lemma InSorted(ctx: Json)
    requires ctx.Obj?
    ensures forall m :: m in SortKeys(ctx.members) ==> m in ctx.members && m.value < ctx
  {
    forall m | m in SortKeys(ctx.members)
      ensures m in ctx.members
    {
      assert m in multiset(ctx.members);
    }
  }

  // ---- stableStringify ----

  function StableStringify(value: Json): Text
    decreases value, 1, 0
  {
    match value
    case Undefined => NULL_TEXT
    case Null => NULL_TEXT
    case Bool(b) => if b then TRUE_TEXT else FALSE_TEXT
    case Number(numeral) => numeral
    case Str(text) => Quote(text)
    case Arr(items) => [OPEN_BRACKET] + StableItems(value, items) + [CLOSE_BRACKET]
    case Obj(members) =>
      InSorted(value);
      [OPEN_BRACE] + StableMembers(value, SortKeys(members)) + [CLOSE_BRACE]
  }

  function StableItems(ctx: Json, items: seq<Json>): Text
    requires forall k :: 0 <= k < |items| ==> items[k] < ctx
    decreases ctx, 0, |items|
  {
    if items == [] then []
    else if |items| == 1 then StableStringify(items[0])
    else StableStringify(items[0]) + [COMMA] + StableItems(ctx, items[1..])
  }

  function StableMembers(ctx: Json, members: seq<Member>): Text
    requires forall m :: m in members ==> m.value < ctx
    decreases ctx, 0, |members|
  {
    if members == [] then []
    else
      var first := Quote(members[0].key) + [COLON] + StableStringify(members[0].value);
      if |members| == 1 then first else first + [COMMA] + StableMembers(ctx, members[1..])
  }

  // ---- Canonical form: members in key order, `undefined` as `null` ----

  function Canon(value: Json): Json
    decreases value, 1, 0
  {
    match value
    case Undefined => Null
    case Arr(items) => Arr(CanonItems(value, items))
    case Obj(members) =>
      InSorted(value);
      Obj(CanonMembers(value, SortKeys(members)))
    case _ => value
  }

  function CanonItems(ctx: Json, items: seq<Json>): (r: seq<Json>)
    requires forall k :: 0 <= k < |items| ==> items[k] < ctx
    ensures |r| == |items| && forall k :: 0 <= k < |r| ==> r[k] == Canon(items[k])
    decreases ctx, 0, |items|
  {
    if items == [] then [] else [Canon(items[0])] + CanonItems(ctx, items[1..])
  }

  function CanonMembers(ctx: Json, members: seq<Member>): (r: seq<Member>)
    requires forall m :: m in members ==> m.value < ctx
    ensures |r| == |members|
    ensures forall k :: 0 <= k < |r| ==> r[k] == Member(members[k].key, Canon(members[k].value))
    decreases ctx, 0, |members|
  {
    if members == [] then []
    else [Member(members[0].key, Canon(members[0].value))] + CanonMembers(ctx, members[1..])
  }

  // ---- Printing members in the order they come ----

  function Print(value: Json): Text {
    match value
    case Undefined => NULL_TEXT
    case Null => NULL_TEXT
    case Bool(b) => if b then TRUE_TEXT else FALSE_TEXT
    case Number(numeral) => numeral
    case Str(text) => Quote(text)
    case Arr(items) => [OPEN_BRACKET] + PrintItems(items) + [CLOSE_BRACKET]
    case Obj(members) => [OPEN_BRACE] + PrintMembers(members) + [CLOSE_BRACE]
  }

  function PrintItems(items: seq<Json>): Text {
    if items == [] then []
    else if |items| == 1 then Print(items[0])
    else Print(items[0]) + [COMMA] + PrintItems(items[1..])
  }

  function PrintMember(m: Member): Text {
    Quote(m.key) + [COLON] + Print(m.value)
  }

  function PrintMembers(members: seq<Member>): Text {
    if members == [] then []
    else if |members| == 1 then PrintMember(members[0])
    else PrintMember(members[0]) + [COMMA] + PrintMembers(members[1..])
  }

  /** `stableStringify` prints the canonical form member by member. */
  lemma {:induction false} StablePrintsCanon(value: Json)
    ensures StableStringify(value) == Print(Canon(value))
    decreases value, 1, 0
  {
    match value
    case Arr(items) => StablePrintsItems(value, items);
    case Obj(members) =>
      InSorted(value);
      StablePrintsMembers(value, SortKeys(members));
    case _ =>
  }

  lemma {:induction false} StablePrintsItems(ctx: Json, items: seq<Json>)
    requires forall k :: 0 <= k < |items| ==> items[k] < ctx
    ensures StableItems(ctx, items) == PrintItems(CanonItems(ctx, items))
    decreases ctx, 0, |items|
  {
    if items != [] {
      StablePrintsCanon(items[0]);
      StablePrintsItems(ctx, items[1..]);
      assert CanonItems(ctx, items)[1..] == CanonItems(ctx, items[1..]);
    }
  }

  lemma {:induction false} StablePrintsMembers(ctx: Json, members: seq<Member>)
    requires forall m :: m in members ==> m.value < ctx
    ensures StableMembers(ctx, members) == PrintMembers(CanonMembers(ctx, members))
    decreases ctx, 0, |members|
  {
    if members != [] {
      StablePrintsCanon(members[0].value);
      StablePrintsMembers(ctx, members[1..]);
      assert CanonMembers(ctx, members)[1..] == CanonMembers(ctx, members[1..]);
    }
  }
}
