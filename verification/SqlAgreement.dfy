/**
 When the two views of a migration text agree: the filter of src/migrations.ts, which drops texts without executable
 SQL, and the lexer behind the splitter.
 */
module SqlAgreement {
  import opened JsStrings
  import opened SqlLexer
  import opened SqlFixpoint
  import opened SqlComments

  predicate IsTrivia(t: Token) {
    t.kind.LineComment? || t.kind.BlockComment? || (t.kind.Plain? && t.text != "" && IsSpace(t.text[0]))
  }

  /** The text lexes to something other than comments and white space. */
  predicate LexesToCode(s: string) {
    exists t <- Tokenize(s) :: !IsTrivia(t)
  }

  predicate IsComment(t: Token) {
    t.kind.LineComment? || t.kind.BlockComment?
  }

  /** Some `--` has no line end after it. */
  predicate DashesOnLastLine(s: string) {
    exists k :: 0 <= k < |s| - 1 && s[k] == '-' && s[k + 1] == '-' && OneLine(s[k..])
  }

  predicate OneLine(s: string) {
    forall j :: 0 <= j < |s| ==> !IsLineEnd(s[j])
  }

  /** What follows the first line end of a line comment. */
  function AfterFirstLine(d: string): string {
    if |d| < 2 then "" else d[2 + LineRest(d[2..])..]
  }

  /**
   A comment written so that the filter drops it: a block comment that is closed and has no `--` on its last line, a
   line comment that holds no line end but its closing one, or only blanks behind one.
   */
  predicate Clean(t: Token) {
    && (t.kind.BlockComment? ==> t.closed && !DashesOnLastLine(t.text))
    && (t.kind.LineComment? ==> ReadsAsBlanks(AfterFirstLine(t.text)))
  }

  /** The comments in front of the first piece of code are clean. */
  predicate CleanLead(ts: seq<Token>) {
    ts != [] && IsTrivia(ts[0]) ==> Clean(ts[0]) && CleanLead(ts[1..])
  }

  // ---- Block comments ----

  lemma {:induction false} BlockEnds(s: string)
    requires BlockSpan(s).closed
    ensures var n := BlockSpan(s).len; n >= 2 && s[n - 1] == '/'
  {
    if !StartsWith2(s, '*', '/') {
      BlockEnds(s[1..]);
    }
  }

  /** A closed block comment is closed on its own. */
  lemma {:induction false} BlockPrefix(s: string)
    requires BlockSpan(s).closed
    ensures BlockSpan(s[..BlockSpan(s).len]) == BlockSpan(s)
  {
    var n := BlockSpan(s).len;
    if !StartsWith2(s, '*', '/') {
      BlockPrefix(s[1..]);
      assert s[..n][1..] == s[1..][..n - 1];
    }
  }

  lemma {:induction false} BlockTail(b: string, k: nat)
    requires BlockSpan(b) == Span(|b|, true) && k <= |b| - 2
    ensures BlockSpan(b[k..]) == Span(|b| - k, true)
  {
    if k > 0 {
      BlockTail(b[1..], k - 1);
      assert b[1..][k - 1..] == b[k..];
    }
  }

  lemma DashesShift(s: string, k: nat)
    requires k <= |s|
    ensures DashesOnLastLine(s[k..]) ==> DashesOnLastLine(s)
    ensures DashesOnLastLine(s) && (k < |s| && IsLineEnd(s[k])) ==> DashesOnLastLine(s[k..])
    ensures DashesOnLastLine(s) && k == 1 && !StartsWith2(s, '-', '-') ==> DashesOnLastLine(s[k..])
  {
    if DashesOnLastLine(s[k..]) {
      var i :| 0 <= i < |s[k..]| - 1 && s[k..][i] == '-' && s[k..][i + 1] == '-' && OneLine(s[k..][i..]);
      assert s[k + i..] == s[k..][i..] && s[k + i] == '-' && s[k + i + 1] == '-';
    }
    if DashesOnLastLine(s) {
      var i :| 0 <= i < |s| - 1 && s[i] == '-' && s[i + 1] == '-' && OneLine(s[i..]);
      if i >= k {
        assert s[i..] == s[k..][i - k..] && s[k..][i - k] == '-' && s[k..][i - k + 1] == '-';
      } else {
        assert k < |s| ==> s[i..][k - i] == s[k];
      }
    }
  }

  /** A closed block comment ends for the filter where it ends for the lexer, unless `--` is on its last line. */
  lemma {:induction false} BlockReading(b: string)
    requires BlockSpan(b) == Span(|b|, true)
    ensures if DashesOnLastLine(b) then !FilterBlock(b).closed else FilterBlock(b) == Span(|b|, true)
    decreases |b|
  {
    hide DashesOnLastLine, IsLineEnd, LineRest;
    BlockEnds(b);
    if StartsWith2(b, '-', '-') {
      var n := 2 + LineRest(b[2..]);
      LineRestStops(b);
      if n < |b| {
        MarksAreNoLineEnds();
        BlockTail(b, n);
        DashesShift(b, n);
        BlockReading(b[n..]);
      } else {
        assert FilterBlock(b[n..]) == Span(0, false);
      }
    } else if StartsWith2(b, '*', '/') {
      NoDashesInMark(b);
    } else {
      BlockEnds(b[1..]);
      BlockTail(b, 1);
      DashesShift(b, 1);
      BlockReading(b[1..]);
    }
  }

  lemma LineRestStops(b: string)
    requires StartsWith2(b, '-', '-')
    ensures var n := 2 + LineRest(b[2..]); if n < |b| then IsLineEnd(b[n]) else DashesOnLastLine(b)
  {
    var n := 2 + LineRest(b[2..]);
    if n == |b| {
      forall j | 0 <= j < |b|
        ensures !IsLineEnd(b[j])
      {
        assert j >= 2 ==> b[j] == b[2..][j - 2];
      }
      assert b[0..] == b && b[0 + 1] == '-';
    }
  }

  lemma NoDashesInMark(b: string)
    requires BlockSpan(b) == Span(|b|, true) && StartsWith2(b, '*', '/')
    ensures !DashesOnLastLine(b)
  {
  }

  lemma {:induction false} OpenSuffix(b: string, k: nat)
    requires !BlockSpan(b).closed && k <= |b|
    ensures !BlockSpan(b[k..]).closed
  {
    if k > 0 {
      OpenSuffix(b[1..], k - 1);
      assert b[1..][k - 1..] == b[k..];
    }
  }

  /** A block comment that is open for the lexer is open for the filter. */
  lemma {:induction false} OpenStaysOpen(b: string)
    requires !BlockSpan(b).closed
    ensures !FilterBlock(b).closed
    decreases |b|
  {
    hide LineRest;
    if b != "" {
      if StartsWith2(b, '-', '-') {
        var n := 2 + LineRest(b[2..]);
        OpenSuffix(b, n);
        OpenStaysOpen(b[n..]);
      } else {
        OpenStaysOpen(b[1..]);
      }
    }
  }

  lemma {:induction false} LineRestKeeps(d: string, r: string)
    ensures LineRest(d) < |d| ==> LineRest(d + r) == LineRest(d)
  {
    if d != "" {
      assert (d + r)[1..] == d[1..] + r;
      LineRestKeeps(d[1..], r);
    }
  }

  /** What follows a block comment does not move its end. */
  lemma {:induction false} FilterBlockKeeps(b: string, r: string)
    requires FilterBlock(b).closed
    ensures FilterBlock(b + r) == FilterBlock(b)
    decreases |b|
  {
    hide LineRest;
    assert b[|b|..] == "" && FilterBlock("") == Span(0, false);
    assert |b| > 1 ==> (b + r)[2..] == b[2..] + r;
    if StartsWith2(b, '-', '-') {
      var n := 2 + LineRest(b[2..]);
      LineRestKeeps(b[2..], r);
      assert (b + r)[n..] == b[n..] + r;
      FilterBlockKeeps(b[n..], r);
    } else if !StartsWith2(b, '*', '/') {
      assert (b + r)[1..] == b[1..] + r;
      FilterBlockKeeps(b[1..], r);
    }
  }

  // ---- Line comments ----

  /** Blanks that end with a line feed are read on their own. */
  lemma {:induction false} BlanksThen(a: string, r: string)
    requires ReadsAsBlanks(a) && (a == "" || a[|a| - 1] == '\n')
    ensures ReadsAsBlanks(a + r) == ReadsAsBlanks(r)
    decreases |a|
  {
    hide LineRest, FilterBlock, IsLineEnd, IsSpace;
    if a == "" {
      assert a + r == r;
    } else if StartsWith2(a, '-', '-') {
      var n := 2 + LineRest(a[2..]);
      LineFeedStops(a[2..]);
      LineRestKeeps(a[2..], r);
      assert (a + r)[2..] == a[2..] + r && (a + r)[n..] == a[n..] + r;
      BlanksThen(a[n..], r);
    } else if StartsWith2(a, '/', '*') {
      var n := 2 + FilterBlock(a[2..]).len;
      FilterBlockKeeps(a[2..], r);
      assert (a + r)[2..] == a[2..] + r && (a + r)[n..] == a[n..] + r;
      BlanksThen(a[n..], r);
    } else {
      SpaceIsNoMark(a[0]);
      assert (a + r)[1..] == a[1..] + r;
      BlanksThen(a[1..], r);
    }
  }

  lemma SpaceIsNoMark(c: char)
    requires IsSpace(c)
    ensures c != '-' && c != '/'
  {
  }

  lemma LineFeedStops(s: string)
    requires s != "" && s[|s| - 1] == '\n'
    ensures LineRest(s) < |s|
  {
    assert IsLineEnd('\n');
  }

  lemma {:induction false} LineCloses(s: string)
    requires LineSpan(s).closed
    ensures LineSpan(s).len > 0 && s[LineSpan(s).len - 1] == '\n'
  {
    if s[0] != '\n' {
      LineCloses(s[1..]);
    }
  }

  // ---- One comment ----

  lemma FirstTokenAlone(s: string, n: nat)
    requires s != "" && TokenSpan(s).len <= n <= |s|
    ensures var k := TokenSpan(s).len;
            s[..n] != "" && FirstToken(s[..n]) == FirstToken(s) && TokenSpan(s[..n]).len == k && s[..n][k..] == s[k..n]
  {
    hide TokenSpan, KindOf;
    assert s[..n] + s[n..] == s;
    TokenCut(s[..n], s[n..]);
    assert s[..n][..TokenSpan(s).len] == s[..TokenSpan(s).len];
  }

  lemma BlockMarks(s: string)
    requires s != "" && KindOf(s).BlockComment?
    ensures StartsWith2(s, '/', '*') && !StartsWith2(s, '-', '-') && TokenSpan(s) == Longer(2, BlockSpan(s[2..]))
    ensures ReadsAsBlanks(s) == (FilterBlock(s[2..]).closed && ReadsAsBlanks(s[2 + FilterBlock(s[2..]).len..]))
  {
    hide FilterBlock, BlockSpan;
  }

  lemma LineMarks(s: string)
    requires s != "" && KindOf(s).LineComment?
    ensures StartsWith2(s, '-', '-') && TokenSpan(s) == Longer(2, LineSpan(s[2..]))
    ensures ReadsAsBlanks(s) == ReadsAsBlanks(s[2 + LineRest(s[2..])..])
  {
    hide LineRest, LineSpan;
  }

  lemma NothingReads()
    ensures ReadsAsBlanks("")
  {
  }

  lemma DashesInBody(d: string)
    requires StartsWith2(d, '/', '*')
    ensures DashesOnLastLine(d) == DashesOnLastLine(d[2..])
  {
    hide IsLineEnd;
    DashesShift(d, 1);
    DashesShift(d[1..], 1);
    assert d[1..][1..] == d[2..];
    assert !StartsWith2(d, '-', '-') && !StartsWith2(d[1..], '-', '-');
  }

  lemma BlockCommentReads(s: string)
    requires s != "" && KindOf(s).BlockComment?
    ensures Clean(FirstToken(s)) ==> ReadsAsBlanks(s) == ReadsAsBlanks(s[TokenSpan(s).len..])
    ensures TokenSpan(s).len == |s| ==> ReadsAsBlanks(s) == Clean(FirstToken(s))
  {
    hide FilterBlock, BlockSpan, ReadsAsBlanks, DashesOnLastLine, KindOf, TokenSpan;
    BlockMarks(s);
    NothingReads();
    var n := TokenSpan(s).len;
    if TokenSpan(s).closed {
      var d, r := s[..n], s[n..];
      BlockPrefix(s[2..]);
      assert s[2..][..n - 2] == d[2..] && s[2..] == d[2..] + r;
      DashesInBody(d);
      BlockReading(d[2..]);
      if !DashesOnLastLine(d) {
        FilterBlockKeeps(d[2..], r);
      } else if n == |s| {
        assert d == s;
      }
    } else {
      OpenStaysOpen(s[2..]);
    }
  }

  lemma LineCommentReads(s: string)
    requires s != "" && KindOf(s).LineComment?
    ensures Clean(FirstToken(s)) ==> ReadsAsBlanks(s) == ReadsAsBlanks(s[TokenSpan(s).len..])
    ensures TokenSpan(s).len == |s| ==> ReadsAsBlanks(s) == Clean(FirstToken(s))
  {
    hide LineRest, LineSpan, ReadsAsBlanks, KindOf, TokenSpan, Clean, AfterFirstLine;
    LineMarks(s);
    NothingReads();
    LineIsClean(FirstToken(s));
    var n := TokenSpan(s).len;
    if n == |s| {
      assert s[..n] == s && s[n..] == "";
      AfterComment(s);
    } else {
      ClosedLine(s);
      if Clean(FirstToken(s)) {
        BlanksThen(AfterFirstLine(s[..n]), s[n..]);
      }
    }
  }

  lemma LineIsClean(t: Token)
    requires t.kind.LineComment?
    ensures Clean(t) <==> ReadsAsBlanks(AfterFirstLine(t.text))
  {
  }

  lemma AfterComment(s: string)
    requires StartsWith2(s, '-', '-')
    ensures AfterFirstLine(s) == s[2 + LineRest(s[2..])..]
  {
  }

  /** A closed line comment ends with its line feed. */
  lemma ClosedLineEnds(s: string)
    requires s != "" && KindOf(s).LineComment? && TokenSpan(s).len < |s|
    ensures var n := TokenSpan(s).len; n > 2 && s[n - 1] == '\n'
  {
    hide LineSpan, KindOf, TokenSpan;
    LineMarks(s);
    LineCloses(s[2..]);
    assert s[TokenSpan(s).len - 1] == s[2..][TokenSpan(s).len - 3];
  }

  /** Cut behind a line feed, a comment's first line ends where it did. */
  lemma FirstLineOf(d: string, r: string)
    requires |d| > 2 && d[|d| - 1] == '\n'
    ensures var t, s := AfterFirstLine(d), d + r;
            t != "" && t[|t| - 1] == '\n' && s[2 + LineRest(s[2..])..] == t + r
  {
    hide LineRest;
    assert (d + r)[2..] == d[2..] + r;
    LineFeedStops(d[2..]);
    LineRestKeeps(d[2..], r);
    var m := 2 + LineRest(d[2..]);
    assert d[m..][|d| - m - 1] == d[|d| - 1];
  }

  lemma ClosedLine(s: string)
    requires s != "" && KindOf(s).LineComment? && TokenSpan(s).len < |s|
    ensures var n := TokenSpan(s).len;
            var t := AfterFirstLine(s[..n]);
            t != "" && t[|t| - 1] == '\n' && s[2 + LineRest(s[2..])..] == t + s[n..]
  {
    hide LineRest, LineSpan, KindOf, TokenSpan, AfterFirstLine;
    ClosedLineEnds(s);
    var n := TokenSpan(s).len;
    FirstLineOf(s[..n], s[n..]);
    assert s[..n] + s[n..] == s;
  }

  lemma CommentReads(s: string)
    requires s != "" && IsComment(FirstToken(s))
    ensures Clean(FirstToken(s)) ==> ReadsAsBlanks(s) == ReadsAsBlanks(s[TokenSpan(s).len..])
    ensures TokenSpan(s).len == |s| ==> ReadsAsBlanks(s) == Clean(FirstToken(s))
  {
    hide ReadsAsBlanks, Clean, TokenSpan;
    if KindOf(s).BlockComment? {
      BlockCommentReads(s);
    } else {
      LineCommentReads(s);
    }
  }

  /** A clean comment makes no difference to the filter, whatever follows it. */
  lemma CleanIsTransparent(s: string)
    requires s != "" && IsComment(FirstToken(s)) && Clean(FirstToken(s))
    ensures HasExecutableSql(s) <==> HasExecutableSql(s[TokenSpan(s).len..])
  {
    hide HasExecutableSql, ReadsAsBlanks, Clean, TokenSpan;
    FilterReadsInOnePass(s);
    FilterReadsInOnePass(s[TokenSpan(s).len..]);
    CommentReads(s);
  }

  /** A text that is one comment is dropped exactly when that comment is clean. */
  lemma CommentIsDroppedIff(s: string)
    requires s != "" && IsComment(FirstToken(s)) && TokenSpan(s).len == |s|
    ensures !HasExecutableSql(s) <==> Clean(FirstToken(s))
  {
    hide HasExecutableSql, ReadsAsBlanks, Clean, TokenSpan;
    FilterReadsInOnePass(s);
    CommentReads(s);
  }

  // ---- Agreement ----

  lemma EmptyText()
    ensures ReadsAsBlanks("") && Tokenize("") == []
  {
  }

  /** White space in front makes no difference to the filter. */
  lemma SpaceReads(s: string)
    requires s != "" && IsTrivia(FirstToken(s)) && !IsComment(FirstToken(s))
    ensures TokenSpan(s).len == 1
    ensures ReadsAsBlanks(s) <==> ReadsAsBlanks(s[1..])
  {
    hide FilterBlock, LineRest;
    assert FirstToken(s).text[0] == s[0];
    SpaceIsNoMark(s[0]);
  }

  lemma CodeReads(s: string)
    requires s != "" && !IsTrivia(FirstToken(s))
    ensures !ReadsAsBlanks(s)
  {
    hide FilterBlock, LineRest, TokenSpan, TagLen;
    assert FirstToken(s).text[0] == s[0];
    CodeStart(s);
  }

  lemma CodeStart(s: string)
    requires s != "" && !IsTrivia(FirstToken(s))
    ensures !IsSpace(s[0]) && !StartsWith2(s, '-', '-') && !StartsWith2(s, '/', '*')
  {
    hide TokenSpan, TagLen;
    assert FirstToken(s).text[0] == s[0];
    if IsSpace(s[0]) {
      SpaceKind(s);
    }
  }

  lemma SpaceKind(s: string)
    requires s != "" && IsSpace(s[0])
    ensures KindOf(s).Plain?
  {
  }

  lemma {:induction false} BlanksAgree(s: string)
    requires CleanLead(Tokenize(s))
    ensures ReadsAsBlanks(s) <==> !LexesToCode(s)
    decreases |s|
  {
    hide Tokenize, TokenSpan, KindOf, ReadsAsBlanks, Clean;
    EmptyText();
    if s != "" {
      var n := TokenSpan(s).len;
      TokenizeFirst(s);
      assert LexesToCode(s) <==> !IsTrivia(FirstToken(s)) || LexesToCode(s[n..]);
      if !IsTrivia(FirstToken(s)) {
        CodeReads(s);
      } else {
        BlanksAgree(s[n..]);
        if IsComment(FirstToken(s)) {
          CommentReads(s);
        } else {
          SpaceReads(s);
        }
      }
    }
  }

  /** The filter keeps a text exactly when it lexes to code, provided the comments in front of that code are clean. */
  lemma FilterAgreesWithLexer(s: string)
    requires CleanLead(Tokenize(s))
    ensures HasExecutableSql(s) <==> LexesToCode(s)
  {
    hide HasExecutableSql, ReadsAsBlanks, Tokenize, CleanLead, LexesToCode;
    FilterReadsInOnePass(s);
    BlanksAgree(s);
  }

  // ---- The condition is exact ----

  /** `s[..n]` is made up of the first few tokens of `s`, all comments and white space. */
  predicate LeadCut(s: string, n: nat)
    decreases |s|
  {
    n == 0 || (s != "" && IsTrivia(FirstToken(s)) && TokenSpan(s).len <= n <= |s|
               && LeadCut(s[TokenSpan(s).len..], n - TokenSpan(s).len))
  }

  /** Cutting a text inside its leading comments and white space, with the first of them clean. */
  lemma CutTransparent(s: string, n: nat)
    requires s != "" && IsTrivia(FirstToken(s)) && Clean(FirstToken(s)) && TokenSpan(s).len <= n <= |s|
    ensures ReadsAsBlanks(s[..n]) <==> ReadsAsBlanks(s[TokenSpan(s).len..][..n - TokenSpan(s).len])
  {
    hide TokenSpan, KindOf, ReadsAsBlanks;
    var k := TokenSpan(s).len;
    FirstTokenAlone(s, n);
    assert s[k..][..n - k] == s[k..n];
    if IsComment(FirstToken(s)) {
      CommentReads(s[..n]);
    } else {
      SpaceReads(s[..n]);
    }
  }

  /**
   The leading comments are clean exactly when the filter keeps none of the texts that consist of the first few of
   them: otherwise there is a text of nothing but comments and white space that it keeps.
   */
  lemma {:induction false} CleanLeadIsExact(s: string)
    ensures CleanLead(Tokenize(s)) <==> KeepsNoLead(s)
    decreases |s|
  {
    hide Tokenize, TokenSpan, KindOf, ReadsAsBlanks, IsTrivia, Clean, KeepsNoLead;
    EmptyText();
    if s == "" {
      NoLead(s);
    } else {
      TokenizeFirst(s);
      if IsTrivia(FirstToken(s)) {
        CleanLeadIsExact(s[TokenSpan(s).len..]);
        OneMoreLead(s);
        OneLessLead(s);
      } else {
        NoLead(s);
      }
    }
  }

  lemma NoLead(s: string)
    requires s == "" || !IsTrivia(FirstToken(s))
    ensures KeepsNoLead(s)
  {
    hide TokenSpan, KindOf, ReadsAsBlanks, IsTrivia, Tokenize;
    EmptyText();
    assert forall n :: 0 <= n <= |s| && LeadCut(s, n) ==> s[..n] == "";
  }

  lemma FirstIsClean(s: string)
    requires s != "" && IsTrivia(FirstToken(s)) && ReadsAsBlanks(s[..TokenSpan(s).len])
    ensures Clean(FirstToken(s))
  {
    hide TokenSpan, KindOf, ReadsAsBlanks, DashesOnLastLine;
    FirstTokenAlone(s, TokenSpan(s).len);
    if IsComment(FirstToken(s)) {
      CommentReads(s[..TokenSpan(s).len]);
    }
  }

  lemma LeadSteps(s: string, n: nat)
    requires s != "" && IsTrivia(FirstToken(s)) && TokenSpan(s).len <= n <= |s|
    ensures LeadCut(s, n) <==> LeadCut(s[TokenSpan(s).len..], n - TokenSpan(s).len)
    ensures LeadCut(s[TokenSpan(s).len..], 0)
  {
    hide TokenSpan, KindOf, IsTrivia;
  }

  lemma LeadIsLong(s: string, n: nat)
    requires s != "" && n > 0 && LeadCut(s, n)
    ensures TokenSpan(s).len <= n <= |s|
  {
    hide TokenSpan, KindOf, IsTrivia;
  }

  /** Every text that consists of the first few leading comments and blanks reads as blanks. */
  ghost predicate KeepsNoLead(s: string) {
    forall n :: 0 <= n <= |s| && LeadCut(s, n) ==> ReadsAsBlanks(s[..n])
  }

  lemma OneMoreLead(s: string)
    requires s != "" && IsTrivia(FirstToken(s))
    ensures KeepsNoLead(s) ==> Clean(FirstToken(s)) && KeepsNoLead(s[TokenSpan(s).len..])
  {
    hide TokenSpan, KindOf, ReadsAsBlanks, IsTrivia, Clean, LeadCut;
    var k := TokenSpan(s).len;
    if KeepsNoLead(s) {
      LeadSteps(s, k);
      FirstIsClean(s);
      forall m | 0 <= m <= |s[k..]| && LeadCut(s[k..], m)
        ensures ReadsAsBlanks(s[k..][..m])
      {
        LeadSteps(s, k + m);
        CutTransparent(s, k + m);
      }
    }
  }

  lemma OneLessLead(s: string)
    requires s != "" && IsTrivia(FirstToken(s))
    ensures Clean(FirstToken(s)) && KeepsNoLead(s[TokenSpan(s).len..]) ==> KeepsNoLead(s)
  {
    hide TokenSpan, KindOf, ReadsAsBlanks, IsTrivia, Clean, LeadCut, Tokenize;
    var k := TokenSpan(s).len;
    if Clean(FirstToken(s)) && KeepsNoLead(s[k..]) {
      forall n | 0 <= n <= |s| && LeadCut(s, n)
        ensures ReadsAsBlanks(s[..n])
      {
        if n == 0 {
          EmptyText();
          assert s[..n] == "";
        } else {
          LeadIsLong(s, n);
          LeadSteps(s, n);
          CutTransparent(s, n);
        }
      }
    }
  }

  lemma {:induction false} LeadIsNoCode(s: string, n: nat)
    requires n <= |s| && LeadCut(s, n)
    ensures !LexesToCode(s[..n])
    decreases |s|
  {
    hide Tokenize, TokenSpan, KindOf, IsTrivia;
    if n == 0 {
      assert s[..n] == "";
      EmptyText();
    } else {
      var k := TokenSpan(s).len;
      FirstTokenAlone(s, n);
      TokenizeFirst(s[..n]);
      LeadIsNoCode(s[k..], n - k);
      assert s[k..][..n - k] == s[k..n];
    }
  }

  /**
   When the views agree: on a text and on everything that consists of its first few comments and blanks, exactly when
   the comments in front of its first code are clean.
   */
  lemma AgreementIsExact(s: string)
    ensures CleanLead(Tokenize(s)) <==>
            && (HasExecutableSql(s) <==> LexesToCode(s))
            && forall n :: 0 <= n <= |s| && LeadCut(s, n) ==> (HasExecutableSql(s[..n]) <==> LexesToCode(s[..n]))
  {
    hide CleanLead, LeadCut, HasExecutableSql, LexesToCode, ReadsAsBlanks, Tokenize;
    CleanLeadIsExact(s);
    if CleanLead(Tokenize(s)) {
      FilterAgreesWithLexer(s);
    }
    forall n | 0 <= n <= |s| && LeadCut(s, n)
      ensures !LexesToCode(s[..n])
      ensures HasExecutableSql(s[..n]) <==> !ReadsAsBlanks(s[..n])
    {
      LeadIsNoCode(s, n);
      FilterReadsInOnePass(s[..n]);
    }
  }

  // ---- One text ----

  /** The text from its first unclean leading comment on; empty when there is none. */
  function FromUnclean(s: string): string
    decreases |s|
  {
    if s == "" || !IsTrivia(FirstToken(s)) then ""
    else if Clean(FirstToken(s)) then FromUnclean(s[TokenSpan(s).len..])
    else s
  }

  lemma NoCode()
    ensures !LexesToCode("")
  {
  }

  lemma {:induction false} FromUncleanDecides(s: string)
    ensures var u := FromUnclean(s);
            if u == "" then ReadsAsBlanks(s) <==> !LexesToCode(s)
            else ReadsAsBlanks(s) == ReadsAsBlanks(u) && LexesToCode(s) == LexesToCode(u)
    ensures FromUnclean(s) == "" <==> CleanLead(Tokenize(s))
    decreases |s|
  {
    hide Tokenize, TokenSpan, KindOf, Clean, ReadsAsBlanks, IsTrivia;
    EmptyText();
    if s != "" {
      var n := TokenSpan(s).len;
      TokenizeFirst(s);
      assert LexesToCode(s) <==> !IsTrivia(FirstToken(s)) || LexesToCode(s[n..]);
      if !IsTrivia(FirstToken(s)) {
        CodeReads(s);
      } else if Clean(FirstToken(s)) {
        FromUncleanDecides(s[n..]);
        if IsComment(FirstToken(s)) {
          CommentReads(s);
        } else {
          SpaceReads(s);
        }
      }
    }
  }

  /**
   For each single text: the views agree on it exactly when, from its first unclean leading comment on, it reads as
   blanks for the filter if and only if it lexes to no code. Without such a comment they agree.
   */
  lemma AgreementOnOneText(s: string)
    ensures (HasExecutableSql(s) <==> LexesToCode(s)) <==>
            (ReadsAsBlanks(FromUnclean(s)) <==> !LexesToCode(FromUnclean(s)))
    ensures FromUnclean(s) == "" <==> CleanLead(Tokenize(s))
  {
    hide Tokenize, HasExecutableSql, ReadsAsBlanks, LexesToCode, FromUnclean, CleanLead;
    FilterReadsInOnePass(s);
    FromUncleanDecides(s);
    EmptyText();
    NoCode();
  }

  // ---- Ordinary comments ----

  /** A closed block comment without `--`, or a line comment that ends with LF or CRLF and holds no other line end. */
  predicate Ordinary(t: Token) {
    && (t.kind.BlockComment? ==>
          t.closed && forall k :: 0 <= k < |t.text| - 1 ==> !(t.text[k] == '-' && t.text[k + 1] == '-'))
    && (t.kind.LineComment? ==>
          var after := AfterFirstLine(t.text);
          after == "" || after == "\n" || after == "\r\n")
  }

  predicate OrdinaryLead(ts: seq<Token>) {
    ts != [] && IsTrivia(ts[0]) ==> Ordinary(ts[0]) && OrdinaryLead(ts[1..])
  }

  lemma {:induction false} OrdinaryIsClean(ts: seq<Token>)
    requires OrdinaryLead(ts)
    ensures CleanLead(ts)
  {
    hide IsTrivia, ReadsAsBlanks, LineRest;
    if ts != [] && IsTrivia(ts[0]) {
      LineEndsAreBlank();
      OrdinaryIsClean(ts[1..]);
    }
  }

  lemma LineEndsAreBlank()
    ensures ReadsAsBlanks("") && ReadsAsBlanks("\n") && ReadsAsBlanks("\r\n")
  {
    var crlf := "\r\n";
    assert crlf[1..] == "\n" && IsSpace(crlf[0]) && IsSpace('\n');
    assert "\n"[1..] == "";
    assert ReadsAsBlanks("\n");
  }

  /** In particular, the views agree on texts whose leading comments are ordinary. */
  lemma OrdinaryCommentsAgree(s: string)
    requires OrdinaryLead(Tokenize(s))
    ensures HasExecutableSql(s) <==> LexesToCode(s)
  {
    hide HasExecutableSql, LexesToCode, CleanLead, OrdinaryLead;
    OrdinaryIsClean(Tokenize(s));
    FilterAgreesWithLexer(s);
  }

  // ---- Each part of the condition is needed ----

  const DASHES_IN_BLOCK := "/*--*/x\n*/"
  const CARRIAGE_RETURN := "--\rx"
  const UNCLOSED_BLOCK := "/*"

  lemma {:induction false} NoNewline(s: string)
    requires forall k :: 0 <= k < |s| ==> s[k] != '\n'
    ensures LineSpan(s) == Span(|s|, false)
  {
    if s != "" {
      NoNewline(s[1..]);
    }
  }

  lemma {:induction false} NoStar(a: string, b: string)
    requires forall k :: 0 <= k < |a| ==> a[k] != '*'
    ensures BlockSpan(a + "*/" + b) == Span(|a| + 2, true)
  {
    if a != "" {
      assert (a + "*/" + b)[1..] == a[1..] + "*/" + b;
      NoStar(a[1..], b);
    }
  }

  lemma LeadThenCode(s: string)
    requires s != "" && s[TokenSpan(s).len..] != "" && !IsTrivia(FirstToken(s[TokenSpan(s).len..]))
    ensures LexesToCode(s)
  {
    hide TokenSpan, KindOf, Tokenize;
    TokenizeFirst(s);
    TokenizeFirst(s[TokenSpan(s).len..]);
    assert FirstToken(s[TokenSpan(s).len..]) in Tokenize(s);
  }

  lemma OnlyLead(s: string)
    requires s != "" && TokenSpan(s).len == |s| && IsTrivia(FirstToken(s))
    ensures !LexesToCode(s)
  {
    hide TokenSpan, KindOf, Tokenize;
    TokenizeFirst(s);
    TokenizeNothing();
    assert s[|s|..] == "";
  }

  lemma DashesLex()
    ensures LexesToCode(DASHES_IN_BLOCK)
  {
    hide Tokenize, LexesToCode, LineSpan, BlockSpan, TagLen, TagRun;
    var s := DASHES_IN_BLOCK;
    NoStar("--", "x\n*/");
    assert s[2..] == "--" + "*/" + "x\n*/" && s[6..] == "x\n*/";
    LeadThenCode(s);
  }

  /** `--` inside a block comment: code is taken for a comment and dropped. */
  lemma DashesInBlockDropCode()
    ensures LexesToCode(DASHES_IN_BLOCK) && !HasExecutableSql(DASHES_IN_BLOCK)
  {
    hide LexesToCode, HasExecutableSql, ReadsAsBlanks, FilterBlock;
    DashesLex();
    FilterReadsInOnePass(DASHES_IN_BLOCK);
    DashesRead();
  }

  lemma DashesRead()
    ensures ReadsAsBlanks(DASHES_IN_BLOCK)
  {
    hide LineRest;
    var s := DASHES_IN_BLOCK;
    var b, c, e := "--*/x\n*/", "*/x\n*/", "\n*/";
    assert s[2..] == b && b[2..] == c && b[5..] == e && e[1..] == "*/" && s[10..] == "";
    FirstLineEnd(c, 3);
    assert FilterBlock("*/") == Span(2, true);
    assert FilterBlock(e) == Span(3, true);
    assert FilterBlock(b) == Span(8, true);
  }

  lemma {:induction false} FirstLineEnd(s: string, n: nat)
    requires n < |s| && IsLineEnd(s[n]) && forall k :: 0 <= k < n ==> !IsLineEnd(s[k])
    ensures LineRest(s) == n
  {
    if n > 0 {
      FirstLineEnd(s[1..], n - 1);
    }
  }

  /** A carriage return ends a line comment for the filter but not for the lexer. */
  lemma CarriageReturnKeepsComment()
    ensures !LexesToCode(CARRIAGE_RETURN) && HasExecutableSql(CARRIAGE_RETURN)
  {
    hide Tokenize, LexesToCode, LineSpan, HasExecutableSql, LineRest;
    var s := CARRIAGE_RETURN;
    assert s[2..] == "\rx" && "\rx"[1..] == "x";
    NoNewline("\rx");
    OnlyLead(s);
    FilterReadsInOnePass(s);
    FirstLineEnd("\rx", 0);
    assert !ReadsAsBlanks("x") && !ReadsAsBlanks("\rx");
  }

  /** For the filter a line comment ends at exactly four characters; what follows one of them is code. */
  lemma LineEndsExactly(c: char)
    ensures HasExecutableSql("--" + [c] + "x") <==>
            c == '\n' || c == '\r' || c as int == 0x2028 || c as int == 0x2029
  {
    hide HasExecutableSql, LineRest;
    var s := "--" + [c] + "x";
    var t := [c] + "x";
    FilterReadsInOnePass(s);
    assert s[2..] == t && t[1..] == "x" && "x"[1..] == "";
    NoLineEndAtAll("x");
    if IsLineEnd(c) {
      FirstLineEnd(t, 0);
      assert s[2..] == t && !ReadsAsBlanks("x") && !ReadsAsBlanks(t);
    } else {
      NoLineEndAtAll(t);
      assert s[4..] == "";
    }
  }

  lemma {:induction false} NoLineEndAtAll(s: string)
    requires OneLine(s)
    ensures LineRest(s) == |s|
  {
    if s != "" {
      NoLineEndAtAll(s[1..]);
    }
  }

  /** An unclosed block comment is nothing but a comment to the lexer, and is kept by the filter. */
  lemma UnclosedBlockIsKept()
    ensures !LexesToCode(UNCLOSED_BLOCK) && HasExecutableSql(UNCLOSED_BLOCK)
  {
    hide Tokenize, LexesToCode, HasExecutableSql;
    var s := UNCLOSED_BLOCK;
    assert s[2..] == "";
    OnlyLead(s);
    FilterReadsInOnePass(s);
    assert FilterBlock("") == Span(0, false);
  }
}
