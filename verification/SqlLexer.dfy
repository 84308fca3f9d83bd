/**
 The token grammar behind the statement splitter of src/migrations.ts, written without any mode flag:
 a migration text is a sequence of tokens, and it is cut at its `;` tokens.

 Block comments do not nest, a double quote has no escape, a dollar tag may start with a digit, and the
 closing tag may share characters with the opening one. A token that the text ends inside of is not `closed`.
 */
module SqlLexer {
  import opened JsStrings

  datatype Span = Span(len: nat, closed: bool)

  function Longer(k: nat, r: Span): Span {
    Span(k + r.len, r.closed)
  }

  // ---- How far each kind of token reaches ----

  /** What follows `--`: up to and including the line feed. */
  function LineSpan(s: string): (r: Span)
    ensures r.len <= |s|
    ensures !r.closed ==> r.len == |s|
  {
    if s == "" then Span(0, false)
    else if s[0] == '\n' then Span(1, true)
    else Longer(1, LineSpan(s[1..]))
  }

  /** What follows the opening of a block comment: up to and including its first closing mark. */
  function BlockSpan(s: string): (r: Span)
    ensures r.len <= |s|
    ensures !r.closed ==> r.len == |s|
  {
    if s == "" then Span(0, false)
    else if s[0] == '*' && |s| > 1 && s[1] == '/' then Span(2, true)
    else Longer(1, BlockSpan(s[1..]))
  }

  /** What follows an opening single quote; a doubled quote stands for itself. */
  function SingleSpan(s: string): (r: Span)
    ensures r.len <= |s|
    ensures !r.closed ==> r.len == |s|
  {
    if s == "" then Span(0, false)
    else if s[0] != '\'' then Longer(1, SingleSpan(s[1..]))
    else if |s| > 1 && s[1] == '\'' then Longer(2, SingleSpan(s[2..]))
    else Span(1, true)
  }

  /** What follows an opening double quote. */
  function DoubleSpan(s: string): (r: Span)
    ensures r.len <= |s|
    ensures !r.closed ==> r.len == |s|
  {
    if s == "" then Span(0, false)
    else if s[0] == '"' then Span(1, true)
    else Longer(1, DoubleSpan(s[1..]))
  }

  predicate IsTagChar(c: char) {
    'a' <= c <= 'z' || 'A' <= c <= 'Z' || '0' <= c <= '9' || c == '_'
  }

  /** The number of tag characters at the head of `s`. */
  function TagRun(s: string): (n: nat)
    ensures n <= |s|
    ensures forall k :: 0 <= k < n ==> IsTagChar(s[k])
    ensures n < |s| ==> !IsTagChar(s[n])
  {
    if s == "" || !IsTagChar(s[0]) then 0 else 1 + TagRun(s[1..])
  }

  /** The length of the dollar tag at the head of `s`, or 0 when there is none. */
  function TagLen(s: string): (n: nat)
    ensures n <= |s| && n != 1
  {
    if s == "" || s[0] != '$' then 0
    else
      var n := TagRun(s[1..]);
      if 1 + n < |s| && s[1 + n] == '$' then n + 2 else 0
  }

  /** The whole dollar body whose tag is `s[..tag]`, looking for the closing tag from position `j` on. */
  function DollarSpan(s: string, tag: nat, j: nat): (r: Span)
    requires 2 <= tag <= j <= |s|
    ensures j <= r.len <= |s|
    ensures !r.closed ==> r.len == |s|
    decreases |s| - j
  {
    if j == |s| then Span(j, false)
    else if s[j] == '$' && s[j + 1 - tag..j + 1] == s[..tag] then Span(j + 1, true)
    else DollarSpan(s, tag, j + 1)
  }

  /** `$`, tag characters, `$`. */
  predicate IsTag(t: string) {
    |t| >= 2 && t[0] == '$' && t[|t| - 1] == '$' && forall k :: 1 <= k < |t| - 1 ==> IsTagChar(t[k])
  }

  /** The tag found is the one prefix that is a tag, and none is found only when there is none. */
  lemma TagIsThePrefix(s: string, n: nat)
    requires 2 <= n <= |s|
    ensures IsTag(s[..n]) <==> n == TagLen(s)
  {
    var run := TagRun(s[1..]);
    assert forall k :: 1 <= k <= run ==> s[k] == s[1..][k - 1];
    if 1 + run < |s| {
      assert s[1 + run] == s[1..][run];
    }
    if IsTag(s[..n]) {
      assert s[..n][0] == s[0] && s[..n][n - 1] == s[n - 1];
      assert forall k :: 1 <= k < n - 1 ==> s[..n][k] == s[k];
      assert !IsTagChar(s[n - 1]);
    }
  }

  /** Looking back from position `e`, the text ends with its own tag. */
  predicate ClosesAt(s: string, tag: nat, e: nat)
    requires 2 <= tag <= e < |s|
  {
    s[e] == '$' && s[e + 1 - tag..e + 1] == s[..tag]
  }

  /** A dollar body ends at the first position that closes it, and is open when there is none. */
  lemma {:induction false} DollarEndsFirst(s: string, tag: nat, j: nat)
    requires 2 <= tag <= j <= |s|
    ensures var r := DollarSpan(s, tag, j);
            && (r.closed ==> j < r.len && ClosesAt(s, tag, r.len - 1))
            && forall e :: j <= e < (if r.closed then r.len - 1 else |s|) ==> !ClosesAt(s, tag, e)
    decreases |s| - j
  {
    if j < |s| && !ClosesAt(s, tag, j) {
      DollarEndsFirst(s, tag, j + 1);
    }
  }

  // ---- Tokens ----

  datatype Kind = Plain | Semicolon | SingleQuoted | DoubleQuoted | LineComment | BlockComment | DollarBody

  datatype Token = Token(kind: Kind, text: string, closed: bool)

  function KindOf(s: string): Kind
    requires s != ""
  {
    if s[0] == '-' && |s| > 1 && s[1] == '-' then LineComment
    else if s[0] == '/' && |s| > 1 && s[1] == '*' then BlockComment
    else if s[0] == '$' && TagLen(s) > 0 then DollarBody
    else if s[0] == '\'' then SingleQuoted
    else if s[0] == '"' then DoubleQuoted
    else if s[0] == ';' then Semicolon
    else Plain
  }

  function TokenSpan(s: string): (r: Span)
    requires s != ""
    ensures 1 <= r.len <= |s|
    ensures !r.closed ==> r.len == |s|
  {
    match KindOf(s)
    case LineComment => Longer(2, LineSpan(s[2..]))
    case BlockComment => Longer(2, BlockSpan(s[2..]))
    case DollarBody => DollarSpan(s, TagLen(s), TagLen(s))
    case SingleQuoted => Longer(1, SingleSpan(s[1..]))
    case DoubleQuoted => Longer(1, DoubleSpan(s[1..]))
    case Semicolon => Span(1, true)
    case Plain => Span(1, true)
  }

  function FirstToken(s: string): Token
    requires s != ""
  {
    Token(KindOf(s), s[..TokenSpan(s).len], TokenSpan(s).closed)
  }

  function Tokenize(s: string): seq<Token> {
    if s == "" then [] else [FirstToken(s)] + Tokenize(s[TokenSpan(s).len..])
  }

  // ---- Statements ----

  /** Puts `c` in front of the first segment. */
  function Prepend(c: string, segs: seq<string>): (r: seq<string>)
    requires segs != []
    ensures |r| == |segs|
  {
    [c + segs[0]] + segs[1..]
  }

  /** The texts between the `;` tokens, untrimmed. */
  function Segments(ts: seq<Token>): (r: seq<string>)
    ensures r != []
  {
    if ts == [] then [""]
    else if ts[0].kind.Semicolon? then [""] + Segments(ts[1..])
    else Prepend(ts[0].text, Segments(ts[1..]))
  }

  function RawSegments(s: string): (r: seq<string>)
    ensures r != []
  {
    Segments(Tokenize(s))
  }

  function KeptOne(seg: string): seq<string> {
    if Trim(seg) == "" then [] else [Trim(seg)]
  }

  /** The segments that do not trim to nothing, trimmed. */
  function Kept(segs: seq<string>): seq<string> {
    if segs == [] then [] else KeptOne(segs[0]) + Kept(segs[1..])
  }

  /** What `splitSql` returns for `s`. */
  function Statements(s: string): seq<string> {
    Kept(RawSegments(s))
  }

  function Join(ss: seq<string>, sep: string): string {
    if ss == [] then "" else if |ss| == 1 then ss[0] else ss[0] + sep + Join(ss[1..], sep)
  }

  lemma {:induction false} KeptConcat(a: seq<string>, b: seq<string>)
    ensures Kept(a + b) == Kept(a) + Kept(b)
  {
    if a == [] {
      assert a + b == b;
    } else {
      assert (a + b)[1..] == a[1..] + b;
      KeptConcat(a[1..], b);
    }
  }

  lemma JoinPrepend(c: string, segs: seq<string>, sep: string)
    requires segs != []
    ensures Join(Prepend(c, segs), sep) == c + Join(segs, sep)
  {
    assert Prepend(c, segs)[1..] == segs[1..];
  }

  lemma TokenizeFirst(s: string)
    requires s != ""
    ensures Tokenize(s) == [FirstToken(s)] + Tokenize(s[TokenSpan(s).len..])
  {
  }

  lemma SemicolonSpan(s: string)
    requires s != "" && KindOf(s).Semicolon?
    ensures TokenSpan(s).len == 1 && s[0] == ';'
  {
  }

  /** Nothing is lost or reordered: the untrimmed segments rejoined with `;` are the input. */
  lemma {:induction false} SegmentsRejoin(s: string)
    ensures Join(RawSegments(s), ";") == s
    decreases |s|
  {
    hide TokenSpan, KindOf;
    if s != "" {
      var n := TokenSpan(s).len;
      var rest := RawSegments(s[n..]);
      SegmentsRejoin(s[n..]);
      assert Tokenize(s)[0] == FirstToken(s) && Tokenize(s)[1..] == Tokenize(s[n..]);
      if KindOf(s).Semicolon? {
        assert n == 1 && s[0] == ';' by { SemicolonSpan(s); }
        assert RawSegments(s)[1..] == rest;
        assert s == ";" + s[1..];
      } else {
        JoinPrepend(s[..n], rest, ";");
        assert s == s[..n] + s[n..];
      }
    }
  }
}
