/**
 Splitting is stable: a returned statement splits to itself, and statements that lex back to normal mode
 survive being joined with `;` and split again.
 */
module SqlFixpoint {
  import opened JsStrings
  import opened SqlLexer

  predicate NoSemicolon(ts: seq<Token>) {
    forall t <- ts :: !t.kind.Semicolon?
  }

  /** Lexing `s` ends outside every quote, comment and dollar body. */
  predicate EndsNormal(s: string) {
    var ts := Tokenize(s);
    ts != [] ==> ts[|ts| - 1].closed
  }

  const SEMICOLON := Token(Semicolon, ";", true)

  // ---- What more text after `s` does to its first token ----

  lemma {:induction false} LineGrows(s: string, u: string)
    ensures LineSpan(s).closed ==> LineSpan(s + u) == LineSpan(s)
    ensures !LineSpan(s).closed && u != "" ==> LineSpan(s + u).len > |s|
  {
    if s == "" {
      assert s + u == u;
    } else {
      assert (s + u)[1..] == s[1..] + u;
      LineGrows(s[1..], u);
    }
  }

  lemma {:induction false} BlockGrows(s: string, u: string)
    ensures BlockSpan(s).closed ==> BlockSpan(s + u) == BlockSpan(s)
    ensures !BlockSpan(s).closed && u != "" ==> BlockSpan(s + u).len > |s|
  {
    if s == "" {
      assert s + u == u;
    } else {
      assert (s + u)[1..] == s[1..] + u;
      BlockGrows(s[1..], u);
    }
  }

  lemma {:induction false} DoubleGrows(s: string, u: string)
    ensures DoubleSpan(s).closed ==> DoubleSpan(s + u) == DoubleSpan(s)
    ensures !DoubleSpan(s).closed && u != "" ==> DoubleSpan(s + u).len > |s|
  {
    if s == "" {
      assert s + u == u;
    } else {
      assert (s + u)[1..] == s[1..] + u;
      DoubleGrows(s[1..], u);
    }
  }

  /** A closed single quote at the very end of `s` reopens when another quote follows. */
  predicate Reopens(s: string, u: string) {
    SingleSpan(s).len == |s| && u != "" && u[0] == '\''
  }

  lemma {:induction false} SingleGrows(s: string, u: string)
    ensures SingleSpan(s).closed && !Reopens(s, u) ==> SingleSpan(s + u) == SingleSpan(s)
    ensures (!SingleSpan(s).closed && u != "") || Reopens(s, u) ==> SingleSpan(s + u).len > |s|
    decreases |s|
  {
    if s == "" {
      assert s + u == u;
    } else if s[0] != '\'' {
      assert (s + u)[1..] == s[1..] + u;
      SingleGrows(s[1..], u);
    } else if |s| > 1 {
      assert (s + u)[2..] == s[2..] + u;
      SingleGrows(s[2..], u);
    }
  }

  lemma {:induction false} DollarGrows(s: string, u: string, tag: nat, j: nat)
    requires 2 <= tag <= j <= |s|
    ensures DollarSpan(s, tag, j).closed ==> DollarSpan(s + u, tag, j) == DollarSpan(s, tag, j)
    ensures !DollarSpan(s, tag, j).closed && u != "" ==> DollarSpan(s + u, tag, j).len > |s|
    decreases |s| - j
  {
    if j < |s| {
      assert (s + u)[j + 1 - tag..j + 1] == s[j + 1 - tag..j + 1];
      assert (s + u)[..tag] == s[..tag];
      DollarGrows(s, u, tag, j + 1);
    }
  }

  lemma {:induction false} TagRunGrows(s: string, u: string)
    ensures TagRun(s) < |s| ==> TagRun(s + u) == TagRun(s)
    ensures TagRun(s) == |s| ==> TagRun(s + u) == |s| + TagRun(u)
  {
    if s == "" {
      assert s + u == u;
    } else {
      assert (s + u)[1..] == s[1..] + u;
      TagRunGrows(s[1..], u);
    }
  }

  lemma TagGrows(s: string, u: string)
    ensures TagLen(s) > 0 ==> TagLen(s + u) == TagLen(s)
    ensures TagLen(s) == 0 && s != "" ==> TagLen(s + u) == 0 || TagLen(s + u) > |s|
    ensures TagLen(s) == 0 && TagLen(s + u) > 0 && s != "" ==>
              s[0] == '$' && forall k :: 1 <= k < |s| ==> IsTagChar(s[k])
    ensures u != "" && u[0] == ';' && s != "" ==> TagLen(s + u) == TagLen(s)
  {
    if s != "" {
      assert (s + u)[1..] == s[1..] + u;
      TagRunGrows(s[1..], u);
      assert forall k :: 1 <= k <= TagRun(s[1..]) ==> IsTagChar(s[1..][k - 1]) && s[k] == s[1..][k - 1];
    }
  }

  /** Text that starts with `;` does not change a token that is already closed. */
  lemma TokenKeeps(s: string, u: string)
    requires s != "" && TokenSpan(s).closed && u != "" && u[0] == ';'
    ensures KindOf(s + u) == KindOf(s) && TokenSpan(s + u) == TokenSpan(s)
  {
    TokenGrows(s, u);
    TagGrows(s, u);
  }

  lemma TokenGrows(s: string, u: string)
    requires s != ""
    ensures KindOf(s + u) == KindOf(s) && TokenSpan(s).closed && !(s[0] == '\'' && Reopens(s[1..], u))
            ==> TokenSpan(s + u) == TokenSpan(s)
    ensures KindOf(s + u) == KindOf(s) && u != "" && (!TokenSpan(s).closed || (s[0] == '\'' && Reopens(s[1..], u)))
            ==> TokenSpan(s + u).len > |s|
  {
    if KindOf(s + u) == KindOf(s) {
      match KindOf(s)
      case LineComment => assert (s + u)[2..] == s[2..] + u; LineGrows(s[2..], u);
      case BlockComment => assert (s + u)[2..] == s[2..] + u; BlockGrows(s[2..], u);
      case DollarBody => TagGrows(s, u); DollarGrows(s, u, TagLen(s), TagLen(s));
      case SingleQuoted => assert (s + u)[1..] == s[1..] + u; SingleGrows(s[1..], u);
      case DoubleQuoted => assert (s + u)[1..] == s[1..] + u; DoubleGrows(s[1..], u);
      case _ =>
    }
  }

  /** Cutting a text after its first token leaves that token; cutting inside it leaves no `;` token. */
  lemma TokenCut(s: string, u: string)
    requires s != ""
    ensures TokenSpan(s + u).len <= |s| ==> KindOf(s) == KindOf(s + u) && TokenSpan(s).len == TokenSpan(s + u).len
    ensures TokenSpan(s + u).len <= |s| ==> TokenSpan(s).closed == TokenSpan(s + u).closed
    ensures TokenSpan(s + u).len > |s| ==> NoSemicolon(Tokenize(s))
  {
    if u == "" {
      assert s + u == s;
    } else {
      TagGrows(s, u);
      TokenGrows(s, u);
      if KindOf(s + u) != KindOf(s) {
        CutInsideOpening(s, u);
      } else if TokenSpan(s + u).len > |s| {
        assert TokenSpan(s).len == |s|;
        assert Tokenize(s)[1..] == Tokenize(s[|s|..]) == [];
      }
    }
  }

  lemma KindChanges(s: string, u: string)
    requires s != "" && KindOf(s) != KindOf(s + u)
    ensures if s[0] == '$' then KindOf(s + u).DollarBody? && TagLen(s) == 0 && TagLen(s + u) > 0
            else |s| == 1 && s[0] != ';' && (KindOf(s + u).LineComment? || KindOf(s + u).BlockComment?)
  {
    hide TagLen;
    TagGrows(s, u);
    assert (s + u)[0] == s[0] && (|s| > 1 ==> (s + u)[1] == s[1]);
  }

  /** The cut falls inside an opening mark: what is left are ordinary characters. */
  lemma CutInsideOpening(s: string, u: string)
    requires s != "" && KindOf(s) != KindOf(s + u)
    ensures TokenSpan(s + u).len > |s|
    ensures NoSemicolon(Tokenize(s))
  {
    hide Tokenize, TokenSpan, KindOf, TagLen, TagRun, NoSemicolon;
    KindChanges(s, u);
    TagGrows(s, u);
    OpeningLength(s + u);
    NoSemicolonCharacter(s);
  }

  lemma OpeningLength(s: string)
    requires s != ""
    ensures KindOf(s).LineComment? || KindOf(s).BlockComment? ==> TokenSpan(s).len >= 2
    ensures KindOf(s).DollarBody? ==> TokenSpan(s).len >= TagLen(s)
  {
  }

  lemma {:induction false} NoSemicolonCharacter(s: string)
    requires forall k :: 0 <= k < |s| ==> s[k] != ';'
    ensures NoSemicolon(Tokenize(s))
    decreases |s|
  {
    hide TokenSpan;
    if s != "" {
      NoSemicolonCharacter(s[TokenSpan(s).len..]);
    }
  }

  // ---- Concatenation ----

  /** A `;` after a text that ends in normal mode is a token of its own, and lexing starts afresh after it. */
  lemma {:induction false} TokenizeConcat(s: string, t: string)
    requires EndsNormal(s)
    ensures Tokenize(s + ";" + t) == Tokenize(s) + [SEMICOLON] + Tokenize(t)
    decreases |s|
  {
    hide Tokenize, KindOf, TokenSpan;
    var u := ";" + t;
    assert s + ";" + t == s + u;
    if s == "" {
      SemicolonFirst(t);
    } else {
      var n := TokenSpan(s).len;
      TokenizeFirst(s);
      TokenizeFirst(s + u);
      FirstIsClosed(s);
      TokenKeeps(s, u);
      assert (s + u)[..n] == s[..n] && (s + u)[n..] == s[n..] + ";" + t;
      TokenizeConcat(s[n..], t);
    }
  }

  lemma FirstIsClosed(s: string)
    requires s != "" && EndsNormal(s)
    ensures TokenSpan(s).closed && EndsNormal(s[TokenSpan(s).len..])
  {
    hide Tokenize, KindOf, TokenSpan;
    TokenizeFirst(s);
    TokenizeNothing();
    assert s[|s|..] == "";
    assert Tokenize(s)[1..] == Tokenize(s[TokenSpan(s).len..]);
  }

  lemma TokenizeNothing()
    ensures Tokenize("") == []
  {
  }

  lemma SemicolonFirst(t: string)
    ensures Tokenize("" + (";" + t)) == Tokenize("") + [SEMICOLON] + Tokenize(t)
  {
    var u := ";" + t;
    assert "" + u == u && u[1..] == t && u[..1] == ";";
  }

  lemma {:induction false} SegmentsConcat(a: seq<Token>, b: seq<Token>)
    requires NoSemicolon(a)
    ensures |Segments(a)| == 1 && Segments(a + [SEMICOLON] + b) == Segments(a) + Segments(b)
  {
    if a == [] {
      assert a + [SEMICOLON] + b == [SEMICOLON] + b;
    } else {
      assert (a + [SEMICOLON] + b)[1..] == a[1..] + [SEMICOLON] + b;
      SegmentsConcat(a[1..], b);
    }
  }

  lemma {:induction false} OneSegment(s: string)
    requires NoSemicolon(Tokenize(s))
    ensures RawSegments(s) == [s]
  {
    SegmentsConcat(Tokenize(s), []);
    SegmentsRejoin(s);
  }

  /** `;` splits: the text before it is one segment when it holds no `;` token and ends in normal mode. */
  lemma RawSegmentsConcat(s: string, t: string)
    requires EndsNormal(s) && NoSemicolon(Tokenize(s))
    ensures RawSegments(s + ";" + t) == [s] + RawSegments(t)
  {
    TokenizeConcat(s, t);
    SegmentsConcat(Tokenize(s), Tokenize(t));
    OneSegment(s);
  }

  lemma NothingSplits()
    ensures Statements("") == []
  {
    assert RawSegments("") == [""];
  }

  predicate Rejoinable(ss: seq<string>) {
    && (forall s <- ss :: s != "" && Trimmed(s) && NoSemicolon(Tokenize(s)))
    && forall i :: 0 <= i < |ss| - 1 ==> EndsNormal(ss[i])
  }

  lemma RejoinableTail(ss: seq<string>)
    requires Rejoinable(ss) && ss != []
    ensures Rejoinable(ss[1..])
  {
    hide Tokenize, NoSemicolon, EndsNormal, Trimmed;
    var rest := ss[1..];
    forall s | s in rest
      ensures s != "" && Trimmed(s) && NoSemicolon(Tokenize(s))
    {
      assert s in ss;
    }
    forall i | 0 <= i < |rest| - 1
      ensures EndsNormal(rest[i])
    {
      assert EndsNormal(ss[i + 1]);
    }
  }

  /** Trimmed statements that lex from normal mode back to normal mode survive `join(";")` and `splitSql`. */
  lemma {:induction false} SplitUndoesJoin(ss: seq<string>)
    requires Rejoinable(ss)
    ensures Statements(Join(ss, ";")) == ss
  {
    hide Tokenize, RawSegments, TrimStart, TrimEnd, NoSemicolon, EndsNormal;
    if ss == [] {
      NothingSplits();
    } else {
      TrimmedFixed(ss[0]);
      if |ss| == 1 {
        OneStatement(ss[0]);
        assert ss == [ss[0]];
      } else {
        RawSegmentsConcat(ss[0], Join(ss[1..], ";"));
        assert RawSegments(Join(ss, ";"))[1..] == RawSegments(Join(ss[1..], ";"));
        RejoinableTail(ss);
        SplitUndoesJoin(ss[1..]);
      }
    }
  }

  // ---- Fixpoint ----

  lemma NoSemicolonFirst(s: string)
    requires s != ""
    ensures NoSemicolon(Tokenize(s)) <==> !KindOf(s).Semicolon? && NoSemicolon(Tokenize(s[TokenSpan(s).len..]))
  {
    hide Tokenize, TokenSpan, KindOf;
    TokenizeFirst(s);
    var rest := Tokenize(s[TokenSpan(s).len..]);
    assert forall t :: t in [FirstToken(s)] + rest <==> t == FirstToken(s) || t in rest;
  }

  lemma {:induction false} PrefixKeepsNoSemicolon(s: string, u: string)
    requires NoSemicolon(Tokenize(s + u))
    ensures NoSemicolon(Tokenize(s))
    decreases |s|
  {
    hide Tokenize, TokenSpan, KindOf, NoSemicolon;
    if s == "" {
      NothingHasNoSemicolon();
    } else {
      TokenCut(s, u);
      NoSemicolonFirst(s);
      NoSemicolonFirst(s + u);
      var n := TokenSpan(s + u).len;
      if n <= |s| {
        assert (s + u)[n..] == s[n..] + u;
        PrefixKeepsNoSemicolon(s[n..], u);
      }
    }
  }

  lemma NothingHasNoSemicolon()
    ensures NoSemicolon(Tokenize(""))
  {
  }

  lemma {:induction false} LeadingSpaceDrops(s: string)
    requires NoSemicolon(Tokenize(s))
    ensures NoSemicolon(Tokenize(TrimStart(s)))
  {
    if s != "" && IsSpace(s[0]) {
      assert Tokenize(s)[1..] == Tokenize(s[1..]);
      LeadingSpaceDrops(s[1..]);
    }
  }

  lemma TrimKeepsNoSemicolon(s: string)
    requires NoSemicolon(Tokenize(s))
    ensures NoSemicolon(Tokenize(Trim(s)))
  {
    hide Tokenize, NoSemicolon, TrimStart, TrimEnd;
    LeadingSpaceDrops(s);
    var t := TrimStart(s);
    TrimEndIs(t);
    assert t == Trim(s) + t[|Trim(s)|..];
    PrefixKeepsNoSemicolon(Trim(s), t[|Trim(s)|..]);
  }

  /** The text up to the first `;` token, lexed on its own, holds no `;` token. */
  lemma {:induction false} FirstSegment(s: string)
    ensures var g := RawSegments(s)[0];
            && NoSemicolon(Tokenize(g)) && |g| <= |s| && g == s[..|g|]
            && RawSegments(s)[1..] == if |g| == |s| then [] else RawSegments(s[|g| + 1..])
    decreases |s|
  {
    hide Tokenize, TokenSpan, KindOf, RawSegments;
    RawSegmentsFirst(s);
    TokenizeNothing();
    if s != "" && !KindOf(s).Semicolon? {
      var n := TokenSpan(s).len;
      FirstSegment(s[n..]);
      var g' := RawSegments(s[n..])[0];
      var g := s[..n] + g';
      assert g == s[..|g|] && s == g + s[|g|..];
      TokenCut(g, s[|g|..]);
      assert g[n..] == g';
      TokenizeFirst(g);
      if |g| < |s| {
        assert s[n..][|g'| + 1..] == s[|g| + 1..];
      }
    }
  }

  lemma RawSegmentsFirst(s: string)
    ensures RawSegments(s) ==
            if s == "" then [""]
            else if KindOf(s).Semicolon? then [""] + RawSegments(s[1..])
            else Prepend(s[..TokenSpan(s).len], RawSegments(s[TokenSpan(s).len..]))
  {
    if s != "" {
      TokenizeFirst(s);
      assert Tokenize(s)[1..] == Tokenize(s[TokenSpan(s).len..]);
    }
  }

  lemma {:induction false} SegmentsHaveNoSemicolon(s: string)
    ensures forall g <- RawSegments(s) :: NoSemicolon(Tokenize(g))
    decreases |s|
  {
    hide Tokenize, RawSegments;
    FirstSegment(s);
    var g := RawSegments(s)[0];
    if |g| < |s| {
      SegmentsHaveNoSemicolon(s[|g| + 1..]);
    }
    assert RawSegments(s) == [g] + RawSegments(s)[1..];
  }

  lemma {:induction false} KeptFrom(segs: seq<string>, k: string) returns (g: string)
    requires k in Kept(segs)
    ensures g in segs && k == Trim(g) && k != ""
  {
    hide TrimStart, TrimEnd;
    if k in KeptOne(segs[0]) {
      g := segs[0];
    } else {
      g := KeptFrom(segs[1..], k);
    }
  }

  /** `splitSql` is a fixpoint on its own output. */
  lemma StatementsAreFixpoints(s: string)
    ensures forall st <- Statements(s) :: Statements(st) == [st]
  {
    hide Tokenize, RawSegments, Kept, TrimStart, TrimEnd;
    SegmentsHaveNoSemicolon(s);
    forall st | st in Statements(s)
      ensures Statements(st) == [st]
    {
      var g := KeptFrom(RawSegments(s), st);
      TrimKeepsNoSemicolon(g);
      TrimIsIdempotent(g);
      OneStatement(st);
    }
  }

  lemma OneStatement(s: string)
    requires NoSemicolon(Tokenize(s)) && s != "" && Trim(s) == s
    ensures Statements(s) == [s]
  {
    hide Tokenize, RawSegments;
    OneSegment(s);
    assert Kept([s]) == KeptOne(s) + Kept([]);
  }
}
