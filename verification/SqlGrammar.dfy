/**
 What the splitter's segments are, law by law, on texts: which openings start a token, where it ends, that `;` cuts, and
 that every other character stands for itself. Only one function on texts obeys these laws.
 */
module SqlGrammar {
  import opened JsStrings
  import opened SqlLexer
  import opened SqlFixpoint

  /** The first token of `d + u` is `d`: it goes whole to the head of the first segment. */
  lemma FirstTokenStays(d: string, u: string)
    requires d != "" && TokenSpan(d + u).len == |d| && !KindOf(d + u).Semicolon?
    ensures RawSegments(d + u) == Prepend(d, RawSegments(u))
  {
    hide TokenSpan, KindOf, RawSegments;
    RawSegmentsFirst(d + u);
    assert (d + u)[..|d|] == d && (d + u)[|d|..] == u;
  }

  lemma OnlyToken(s: string)
    requires s != "" && TokenSpan(s).len == |s| && !KindOf(s).Semicolon?
    ensures RawSegments(s) == [s]
  {
    hide TokenSpan, KindOf, RawSegments;
    assert s + "" == s;
    FirstTokenStays(s, "");
    RawSegmentsFirst("");
    assert s + "" == s;
  }

  // ---- Nothing, and `;` ----

  lemma NoTextIsOneSegment()
    ensures RawSegments("") == [""]
  {
  }

  /** A `;` in front of any text cuts. */
  lemma SemicolonCuts(u: string)
    ensures RawSegments(";" + u) == [""] + RawSegments(u)
  {
    hide RawSegments, Tokenize;
    assert (";" + u)[1..] == u;
    RawSegmentsFirst(";" + u);
  }

  // ---- Line comments ----

  predicate Lacks(s: string, c: char) {
    forall k :: 0 <= k < |s| ==> s[k] != c
  }

  lemma {:induction false} LineReaches(x: string, u: string)
    requires Lacks(x, '\n')
    ensures LineSpan(x + "\n" + u) == Span(|x| + 1, true)
    ensures LineSpan(x) == Span(|x|, false)
  {
    if x == "" {
      assert (x + "\n" + u)[0] == '\n';
    } else {
      assert (x + "\n" + u)[1..] == x[1..] + "\n" + u;
      LineReaches(x[1..], u);
    }
  }

  /** `--` opens a comment that goes to the line feed, whatever it holds, or to the end. */
  lemma LineCommentIsOneToken(x: string, u: string)
    requires Lacks(x, '\n')
    ensures var d := "--" + x + "\n";
            RawSegments(d + u) == Prepend(d, RawSegments(u))
    ensures RawSegments("--" + x) == ["--" + x]
  {
    hide LineSpan, RawSegments, Tokenize;
    var d := "--" + x + "\n";
    LineReaches(x, u);
    assert (d + u)[2..] == x + "\n" + u && ("--" + x)[2..] == x;
    FirstTokenStays(d, u);
    OnlyToken("--" + x);
  }

  // ---- Block comments ----

  predicate LacksClosing(x: string) {
    forall k :: 0 <= k < |x| - 1 ==> !(x[k] == '*' && x[k + 1] == '/')
  }

  lemma {:induction false} BlockReaches(x: string, u: string)
    requires LacksClosing(x)
    ensures BlockSpan(x + "*/" + u) == Span(|x| + 2, true)
    ensures BlockSpan(x) == Span(|x|, false)
  {
    var s := x + "*/" + u;
    if x == "" {
      assert s[0] == '*' && s[1] == '/';
    } else {
      assert s[1..] == x[1..] + "*/" + u;
      assert |x| > 1 ==> !(x[0] == '*' && x[0 + 1] == '/') && s[1] == x[1];
      assert |x| == 1 ==> s[1] == '*';
      forall k | 0 <= k < |x[1..]| - 1
        ensures !(x[1..][k] == '*' && x[1..][k + 1] == '/')
      {
        assert !(x[k + 1] == '*' && x[k + 1 + 1] == '/');
      }
      BlockReaches(x[1..], u);
    }
  }

  /** A block comment goes to its first closing mark, whatever it holds, or to the end; it does not nest. */
  lemma BlockCommentIsOneToken(x: string, u: string)
    requires LacksClosing(x)
    ensures var d := "/*" + x + "*/";
            RawSegments(d + u) == Prepend(d, RawSegments(u))
    ensures RawSegments("/*" + x) == ["/*" + x]
  {
    hide BlockSpan, RawSegments, Tokenize;
    var d := "/*" + x + "*/";
    BlockReaches(x, u);
    assert (d + u)[2..] == x + "*/" + u && ("/*" + x)[2..] == x;
    FirstTokenStays(d, u);
    OnlyToken("/*" + x);
  }

  // ---- Quotes ----

  /** A text as it is written between single quotes: each quote twice. */
  function Doubled(x: string): string {
    if x == "" then "" else (if x[0] == '\'' then "''" else [x[0]]) + Doubled(x[1..])
  }

  lemma SingleSteps(c: char, s: string)
    ensures c != '\'' ==> SingleSpan([c] + s) == Longer(1, SingleSpan(s))
    ensures SingleSpan("''" + s) == Longer(2, SingleSpan(s))
  {
    assert ([c] + s)[1..] == s && ("''" + s)[2..] == s;
  }

  lemma SingleEnds(u: string)
    requires u == "" || u[0] != '\''
    ensures SingleSpan("'" + u) == Span(1, true) && SingleSpan("") == Span(0, false)
  {
    assert ("'" + u)[1..] == u;
  }

  lemma DoubledSteps(x: string)
    ensures x == "" ==> Doubled(x) == ""
    ensures x != "" ==> Doubled(x) == (if x[0] == '\'' then "''" else [x[0]]) + Doubled(x[1..])
  {
  }

  lemma {:induction false} SingleReaches(x: string, u: string)
    requires u == "" || u[0] != '\''
    ensures SingleSpan(Doubled(x) + "'" + u) == Span(|Doubled(x)| + 1, true)
    ensures SingleSpan(Doubled(x)) == Span(|Doubled(x)|, false)
  {
    hide SingleSpan, Doubled;
    DoubledSteps(x);
    if x == "" {
      SingleEnds(u);
      assert Doubled(x) + "'" + u == "'" + u;
    } else {
      var rest := Doubled(x[1..]);
      var more := rest + "'" + u;
      var first := if x[0] == '\'' then "''" else [x[0]];
      SingleReaches(x[1..], u);
      SingleSteps(x[0], more);
      SingleSteps(x[0], rest);
      assert Doubled(x) + "'" + u == first + more;
    }
  }

  /** A single quote opens a string that goes to the next quote not doubled, whatever it holds, or to the end. */
  lemma SingleQuotedIsOneToken(x: string, u: string)
    requires u == "" || u[0] != '\''
    ensures var d := "'" + Doubled(x) + "'";
            RawSegments(d + u) == Prepend(d, RawSegments(u))
    ensures RawSegments("'" + Doubled(x)) == ["'" + Doubled(x)]
  {
    hide SingleSpan, RawSegments, Tokenize, Doubled;
    var d := "'" + Doubled(x) + "'";
    SingleReaches(x, u);
    assert (d + u)[1..] == Doubled(x) + "'" + u && ("'" + Doubled(x))[1..] == Doubled(x);
    FirstTokenStays(d, u);
    OnlyToken("'" + Doubled(x));
  }

  lemma {:induction false} DoubleReaches(x: string, u: string)
    requires Lacks(x, '"')
    ensures DoubleSpan(x + "\"" + u) == Span(|x| + 1, true)
    ensures DoubleSpan(x) == Span(|x|, false)
  {
    if x == "" {
      assert (x + "\"" + u)[0] == '"';
    } else {
      assert (x + "\"" + u)[1..] == x[1..] + "\"" + u;
      DoubleReaches(x[1..], u);
    }
  }

  /** A double quote opens a name that goes to the next one, whatever it holds, or to the end. */
  lemma DoubleQuotedIsOneToken(x: string, u: string)
    requires Lacks(x, '"')
    ensures var d := "\"" + x + "\"";
            RawSegments(d + u) == Prepend(d, RawSegments(u))
    ensures RawSegments("\"" + x) == ["\"" + x]
  {
    hide DoubleSpan, RawSegments, Tokenize;
    var d := "\"" + x + "\"";
    DoubleReaches(x, u);
    assert (d + u)[1..] == x + "\"" + u && ("\"" + x)[1..] == x;
    FirstTokenStays(d, u);
    OnlyToken("\"" + x);
  }

  // ---- Dollar bodies ----

  /** No position before `e` closes the body. */
  predicate OpenUntil(d: string, tag: nat, e: nat)
    requires 2 <= tag <= |d| && e <= |d|
  {
    forall k :: tag <= k < e ==> !ClosesAt(d, tag, k)
  }

  lemma DollarReaches(t: string, d: string, u: string)
    requires IsTag(t) && t < d && ClosesAt(d, |t|, |d| - 1) && OpenUntil(d, |t|, |d| - 1)
    ensures TagLen(d + u) == |t| && DollarSpan(d + u, |t|, |t|) == Span(|d|, true)
  {
    hide DollarSpan, TagLen;
    var s := d + u;
    assert s[..|t|] == d[..|t|] == t;
    TagIsThePrefix(s, |t|);
    DollarEndsFirst(s, |t|, |t|);
    forall e | |t| <= e < |d|
      ensures ClosesAt(s, |t|, e) == ClosesAt(d, |t|, e)
    {
      assert s[e + 1 - |t|..e + 1] == d[e + 1 - |t|..e + 1];
    }
    var r := DollarSpan(s, |t|, |t|);
    assert ClosesAt(s, |t|, |d| - 1);
    assert r.closed ==> r.len >= |d|;
  }

  lemma DollarStaysOpen(t: string, d: string)
    requires IsTag(t) && t <= d && OpenUntil(d, |t|, |d|)
    ensures TagLen(d) == |t| && DollarSpan(d, |t|, |t|) == Span(|d|, false)
  {
    hide DollarSpan, TagLen;
    assert d[..|t|] == t;
    TagIsThePrefix(d, |t|);
    DollarEndsFirst(d, |t|, |t|);
  }

  lemma DollarKind(s: string)
    requires s != "" && s[0] == '$' && TagLen(s) > 0
    ensures !KindOf(s).Semicolon? && TokenSpan(s) == DollarSpan(s, TagLen(s), TagLen(s))
  {
    hide TagLen, DollarSpan;
  }

  /**
   Any tag, `$$` included, opens a body: `d`, which starts with the tag and ends where looking back shows it again for
   the first time, is one token; so is what follows a tag that never comes again.
   */
  lemma DollarBodyIsOneToken(t: string, d: string, u: string)
    requires IsTag(t) && t <= d
    ensures t < d && ClosesAt(d, |t|, |d| - 1) && OpenUntil(d, |t|, |d| - 1) ==>
              RawSegments(d + u) == Prepend(d, RawSegments(u))
    ensures OpenUntil(d, |t|, |d|) ==> RawSegments(d) == [d]
  {
    hide DollarSpan, TagLen, RawSegments, ClosesAt, OpenUntil, TokenSpan, KindOf;
    assert d[0] == t[0] == '$';
    if t < d && ClosesAt(d, |t|, |d| - 1) && OpenUntil(d, |t|, |d| - 1) {
      DollarReaches(t, d, u);
      DollarKind(d + u);
      FirstTokenStays(d, u);
    }
    if OpenUntil(d, |t|, |d|) {
      DollarStaysOpen(t, d);
      DollarKind(d);
      OnlyToken(d);
    }
  }

  /** A body without `$` between two tags, other than the inside of the tag, closes at its second tag and not before. */
  lemma BodyCloses(t: string, b: string)
    requires IsTag(t) && Lacks(b, '$') && b != t[1..|t| - 1]
    ensures var d := t + b + t;
            t < d && ClosesAt(d, |t|, |d| - 1) && OpenUntil(d, |t|, |d| - 1)
  {
    var d, n := t + b + t, |t|;
    assert d[|d| - n..] == t && d[..n] == t;
    forall k | n <= k < |d| - 1
      ensures !ClosesAt(d, n, k)
    {
      DollarPlaces(t, b, k);
      if d[k] == '$' {
        var w := d[k + 1 - n..k + 1];
        assert w[0] == d[|b| + 1];
        if |b| + 1 == n - 1 {
          assert d[n..n + |b|] == b;
          assert w[1..n - 1] == d[n..n + |b|];
        } else {
          DollarPlaces(t, b, |b| + 1);
        }
      }
    }
  }

  /** Where the `$`s of `t + b + t` are. */
  lemma DollarPlaces(t: string, b: string, k: nat)
    requires IsTag(t) && Lacks(b, '$') && 0 < k < |t + b + t| - 1
    ensures (t + b + t)[k] == '$' <==> k == |t| - 1 || k == |t| + |b|
  {
    var d := t + b + t;
    if k < |t| {
      assert d[k] == t[k];
    } else if k < |t| + |b| {
      assert d[k] == b[k - |t|];
    } else {
      assert d[k] == t[k - |t| - |b|];
    }
  }

  /** Such a body is one statement, however many `;` it holds. */
  lemma DollarBodyIsOneStatement(t: string, b: string)
    requires IsTag(t) && Lacks(b, '$') && b != t[1..|t| - 1]
    ensures Statements(t + b + t) == [t + b + t]
  {
    hide RawSegments, TrimStart, TrimEnd, ClosesAt, OpenUntil;
    var d := t + b + t;
    BodyCloses(t, b);
    DollarBodyIsOneToken(t, d, "");
    NoTextIsOneSegment();
    assert d + "" == d && RawSegments(d) == [d];
    assert d[0] == t[0] && d[|d| - 1] == t[|t| - 1];
    TrimmedFixed(d);
    assert Kept([d]) == KeptOne(d) + Kept([]);
  }

  /** Between two tags, the inside of the tag is not a body: the closing tag shares a `$` with the opening one. */
  lemma TagsOverlap(t: string, u: string)
    requires IsTag(t)
    ensures var d := t + t[1..];
            RawSegments(d + u) == Prepend(d, RawSegments(u))
  {
    hide RawSegments;
    var d, n := t + t[1..], |t|;
    assert d[n - 1..] == t && d[..n] == t;
    assert d[|d| - n..|d|] == t && d[|d| - 1] == t[n - 1];
    forall k | n <= k < |d| - 1
      ensures !ClosesAt(d, n, k)
    {
      assert d[k] == t[k - n + 1];
    }
    DollarBodyIsOneToken(t, d, u);
  }

  // ---- Everything else ----

  /** A character that opens nothing stands for itself. */
  lemma OtherCharacterStandsAlone(c: char, u: string)
    requires c != ';' && c != '\'' && c != '"'
    requires !("--" <= [c] + u) && !("/*" <= [c] + u)
    requires forall n :: 2 <= n <= |u| + 1 ==> !IsTag(([c] + u)[..n])
    ensures RawSegments([c] + u) == Prepend([c], RawSegments(u))
  {
    hide RawSegments, Tokenize, IsTag, TagLen;
    var s := [c] + u;
    MarkIsPrefix(s, '-', '-');
    MarkIsPrefix(s, '/', '*');
    if TagLen(s) > 0 {
      TagLenInRange(s);
      TagIsThePrefix(s, TagLen(s));
    }
    FirstTokenStays([c], u);
  }

  lemma MarkIsPrefix(s: string, a: char, b: char)
    ensures |s| > 1 && s[0] == a && s[1] == b ==> [a, b] <= s
  {
  }

  lemma TagLenInRange(s: string)
    requires TagLen(s) > 0
    ensures 2 <= TagLen(s) <= |s|
  {
  }

  // ---- The laws determine the segments ----

  type Cutter = string -> seq<string>

  /** `d` is one token in front of `u`. */
  ghost predicate Stays(f: Cutter, d: string, u: string) {
    f(u) != [] && f(d + u) == Prepend(d, f(u))
  }

  ghost predicate LineLaw(f: Cutter, x: string, u: string) {
    Lacks(x, '\n') ==> Stays(f, "--" + x + "\n", u) && f("--" + x) == ["--" + x]
  }

  ghost predicate BlockLaw(f: Cutter, x: string, u: string) {
    LacksClosing(x) ==> Stays(f, "/*" + x + "*/", u) && f("/*" + x) == ["/*" + x]
  }

  ghost predicate SingleLaw(f: Cutter, x: string, u: string) {
    u == "" || u[0] != '\'' ==> Stays(f, "'" + Doubled(x) + "'", u) && f("'" + Doubled(x)) == ["'" + Doubled(x)]
  }

  ghost predicate DoubleLaw(f: Cutter, x: string, u: string) {
    Lacks(x, '"') ==> Stays(f, "\"" + x + "\"", u) && f("\"" + x) == ["\"" + x]
  }

  ghost predicate DollarLaw(f: Cutter, t: string, d: string, u: string) {
    IsTag(t) && t <= d ==>
      && (t < d && ClosesAt(d, |t|, |d| - 1) && OpenUntil(d, |t|, |d| - 1) ==> Stays(f, d, u))
      && (OpenUntil(d, |t|, |d|) ==> f(d) == [d])
  }

  predicate OpensNothing(c: char, u: string) {
    && c != ';' && c != '\'' && c != '"' && !("--" <= [c] + u) && !("/*" <= [c] + u)
    && forall n :: 2 <= n <= |u| + 1 ==> !IsTag(([c] + u)[..n])
  }

  ghost predicate OtherLaw(f: Cutter, c: char, u: string) {
    OpensNothing(c, u) ==> Stays(f, [c], u)
  }

  ghost predicate SemicolonLaw(f: Cutter, u: string) {
    f(";" + u) == [""] + f(u)
  }

  ghost predicate Lawful(f: Cutter) {
    && f("") == [""]
    && (forall u :: SemicolonLaw(f, u))
    && (forall x, u :: LineLaw(f, x, u))
    && (forall x, u :: BlockLaw(f, x, u))
    && (forall x, u :: SingleLaw(f, x, u))
    && (forall x, u :: DoubleLaw(f, x, u))
    && (forall t, d, u :: DollarLaw(f, t, d, u))
    && forall c, u :: OtherLaw(f, c, u)
  }

  /** The segments obey all laws. */
  lemma SegmentsAreLawful()
    ensures Lawful(RawSegments)
  {
    hide RawSegments, Doubled, IsTag, ClosesAt, OpenUntil, Lacks, LacksClosing;
    NoTextIsOneSegment();
    forall u ensures SemicolonLaw(RawSegments, u) { SemicolonCuts(u); }
    forall x, u ensures LineLaw(RawSegments, x, u) { if Lacks(x, '\n') { LineCommentIsOneToken(x, u); } }
    forall x, u ensures BlockLaw(RawSegments, x, u) { if LacksClosing(x) { BlockCommentIsOneToken(x, u); } }
    forall x, u ensures SingleLaw(RawSegments, x, u) {
      if u == "" || u[0] != '\'' { SingleQuotedIsOneToken(x, u); }
    }
    forall x, u ensures DoubleLaw(RawSegments, x, u) { if Lacks(x, '"') { DoubleQuotedIsOneToken(x, u); } }
    forall t, d, u ensures DollarLaw(RawSegments, t, d, u) {
      if IsTag(t) && t <= d { DollarBodyIsOneToken(t, d, u); }
    }
    forall c, u ensures OtherLaw(RawSegments, c, u) { if OpensNothing(c, u) { OtherCharacterStandsAlone(c, u); } }
  }

  // What each kind of token looks like.

  lemma {:induction false} LineForm(s: string)
    ensures var r := LineSpan(s);
            if r.closed then r.len > 0 && s[r.len - 1] == '\n' && Lacks(s[..r.len - 1], '\n') else Lacks(s, '\n')
  {
    if s != "" && s[0] != '\n' {
      LineForm(s[1..]);
      assert forall k :: 0 < k < |s| ==> s[k] == s[1..][k - 1];
    }
  }

  lemma {:induction false} DoubleForm(s: string)
    ensures var r := DoubleSpan(s);
            if r.closed then r.len > 0 && s[r.len - 1] == '"' && Lacks(s[..r.len - 1], '"') else Lacks(s, '"')
  {
    if s != "" && s[0] != '"' {
      DoubleForm(s[1..]);
      assert forall k :: 0 < k < |s| ==> s[k] == s[1..][k - 1];
    }
  }

  lemma ClosingInRest(s: string)
    requires s != "" && LacksClosing(s[1..]) && !(|s| > 1 && s[0] == '*' && s[1] == '/')
    ensures LacksClosing(s)
  {
    assert forall k :: 0 < k < |s| ==> s[k] == s[1..][k - 1];
  }

  lemma {:induction false} BlockForm(s: string)
    ensures var r := BlockSpan(s);
            if r.closed then r.len >= 2 && s[r.len - 2] == '*' && s[r.len - 1] == '/' && LacksClosing(s[..r.len - 2])
            else LacksClosing(s)
  {
    if s != "" && !(|s| > 1 && s[0] == '*' && s[1] == '/') {
      BlockForm(s[1..]);
      var r := BlockSpan(s);
      if r.closed {
        var x := s[..r.len - 2];
        assert x != "" ==> x[1..] == s[1..][..r.len - 3];
        if x != "" {
          ClosingInRest(x);
        }
      } else {
        ClosingInRest(s);
      }
    }
  }

  lemma {:induction false} SingleForm(s: string) returns (x: string)
    ensures var r := SingleSpan(s);
            if r.closed then s[..r.len] == Doubled(x) + "'" && (r.len < |s| ==> s[r.len] != '\'') else s == Doubled(x)
    decreases |s|
  {
    hide Doubled;
    if s == "" || (s[0] == '\'' && !(|s| > 1 && s[1] == '\'')) {
      x := "";
      DoubledSteps(x);
    } else {
      var n := if s[0] == '\'' then 2 else 1;
      var rest := SingleForm(s[n..]);
      x := [s[0]] + rest;
      DoubledSteps(x);
      assert x[1..] == rest && s == s[..n] + s[n..];
      var r := SingleSpan(s);
      assert s[..n] == if s[0] == '\'' then "''" else [s[0]];
      assert r.closed ==> s[..r.len] == s[..n] + s[n..][..r.len - n];
    }
  }

  lemma LineCase(f: Cutter, s: string)
    requires Lawful(f) && s != "" && KindOf(s).LineComment?
    ensures if TokenSpan(s).closed then Stays(f, s[..TokenSpan(s).len], s[TokenSpan(s).len..]) else f(s) == [s]
  {
    hide LineSpan, Lacks, Stays;
    LineForm(s[2..]);
    var n := TokenSpan(s).len;
    var x := if TokenSpan(s).closed then s[2..][..n - 3] else s[2..];
    assert s[..2] == "--";
    assert LineLaw(f, x, s[n..]);
    if TokenSpan(s).closed {
      assert s[n - 1] == s[2..][n - 3];
      assert s[..n] == "--" + x + "\n";
    } else {
      assert s == "--" + x;
    }
  }

  lemma BlockCase(f: Cutter, s: string)
    requires Lawful(f) && s != "" && KindOf(s).BlockComment?
    ensures if TokenSpan(s).closed then Stays(f, s[..TokenSpan(s).len], s[TokenSpan(s).len..]) else f(s) == [s]
  {
    hide BlockSpan, LacksClosing, Stays;
    BlockForm(s[2..]);
    var n := TokenSpan(s).len;
    var x := if TokenSpan(s).closed then s[2..][..n - 4] else s[2..];
    assert s[..2] == "/*";
    assert BlockLaw(f, x, s[n..]);
    if TokenSpan(s).closed {
      assert s[n - 1] == s[2..][n - 3] && s[n - 2] == s[2..][n - 4];
      assert s[..n] == "/*" + x + "*/";
    } else {
      assert s == "/*" + x;
    }
  }

  lemma SingleCase(f: Cutter, s: string)
    requires Lawful(f) && s != "" && KindOf(s).SingleQuoted?
    ensures if TokenSpan(s).closed then Stays(f, s[..TokenSpan(s).len], s[TokenSpan(s).len..]) else f(s) == [s]
  {
    hide SingleSpan, Doubled, Stays;
    var x := SingleForm(s[1..]);
    var n := TokenSpan(s).len;
    assert s[..1] == "'";
    if TokenSpan(s).closed {
      assert n < |s| ==> s[n..][0] == s[1..][n - 1];
      assert SingleLaw(f, x, s[n..]);
      assert s[..n] == "'" + s[1..][..n - 1];
      assert s[..n] == "'" + Doubled(x) + "'";
    } else {
      assert SingleLaw(f, x, "");
      assert s == "'" + Doubled(x);
    }
  }

  lemma DoubleCase(f: Cutter, s: string)
    requires Lawful(f) && s != "" && KindOf(s).DoubleQuoted?
    ensures if TokenSpan(s).closed then Stays(f, s[..TokenSpan(s).len], s[TokenSpan(s).len..]) else f(s) == [s]
  {
    hide DoubleSpan, Lacks, Stays;
    DoubleForm(s[1..]);
    var n := TokenSpan(s).len;
    var x := if TokenSpan(s).closed then s[1..][..n - 2] else s[1..];
    assert s[..1] == "\"";
    assert DoubleLaw(f, x, s[n..]);
    if TokenSpan(s).closed {
      assert s[n - 1] == s[1..][n - 2];
      assert s[..n] == "\"" + x + "\"";
    } else {
      assert s == "\"" + x;
    }
  }

  /** A dollar body starts with its tag and, when it is closed, ends where the tag shows again for the first time. */
  lemma DollarForm(s: string)
    requires s != "" && KindOf(s).DollarBody?
    ensures var tag, n := TagLen(s), TokenSpan(s).len;
            && 2 <= tag <= n <= |s| && IsTag(s[..tag])
            && (TokenSpan(s).closed ==> tag < n && ClosesAt(s[..n], tag, n - 1) && OpenUntil(s[..n], tag, n - 1))
            && (!TokenSpan(s).closed ==> n == |s| && OpenUntil(s, tag, |s|))
  {
    hide DollarSpan, TagLen;
    var tag := TagLen(s);
    TagLenInRange(s);
    TagIsThePrefix(s, tag);
    DollarEndsFirst(s, tag, tag);
    var n := TokenSpan(s).len;
    var d := s[..n];
    forall e | tag <= e < n
      ensures ClosesAt(d, tag, e) == ClosesAt(s, tag, e)
    {
      assert d[e + 1 - tag..e + 1] == s[e + 1 - tag..e + 1] && d[..tag] == s[..tag];
    }
  }

  lemma LawfulDollar(f: Cutter, t: string, d: string, u: string)
    requires Lawful(f)
    ensures DollarLaw(f, t, d, u)
  {
    hide SemicolonLaw, LineLaw, BlockLaw, SingleLaw, DoubleLaw, DollarLaw, OtherLaw;
  }

  lemma DollarCase(f: Cutter, s: string)
    requires Lawful(f) && s != "" && KindOf(s).DollarBody?
    ensures if TokenSpan(s).closed then Stays(f, s[..TokenSpan(s).len], s[TokenSpan(s).len..]) else f(s) == [s]
  {
    hide DollarSpan, TagLen, Stays, Lawful, TokenSpan, ClosesAt, OpenUntil, IsTag;
    DollarForm(s);
    var tag, n := TagLen(s), TokenSpan(s).len;
    var t, d := s[..tag], s[..n];
    LawfulDollar(f, t, d, s[n..]);
    assert t == d[..tag];
    if !TokenSpan(s).closed {
      assert d == s;
    }
  }

  lemma OtherCase(f: Cutter, s: string)
    requires Lawful(f) && s != "" && KindOf(s).Plain?
    ensures TokenSpan(s) == Span(1, true) && Stays(f, s[..1], s[1..])
  {
    hide TagLen, Stays, IsTag;
    var c, u := s[0], s[1..];
    assert s[..1] == [c] && [c] + u == s;
    assert OtherLaw(f, c, u);
    forall n | 2 <= n <= |u| + 1
      ensures !IsTag(s[..n])
    {
      TagIsThePrefix(s, n);
      TagStart(s, n);
    }
  }

  lemma TagStart(s: string, n: nat)
    requires 2 <= n <= |s|
    ensures IsTag(s[..n]) ==> s[0] == '$'
  {
  }

  /** One token, or the whole text, is treated alike by all lawful functions. */
  lemma TokenCase(f: Cutter, s: string)
    requires Lawful(f) && s != "" && !KindOf(s).Semicolon?
    ensures var n := TokenSpan(s).len; Stays(f, s[..n], s[n..]) || (n == |s| && f(s) == [s])
  {
    hide Lawful, TokenSpan, Stays;
    match KindOf(s)
    case LineComment => LineCase(f, s);
    case BlockComment => BlockCase(f, s);
    case SingleQuoted => SingleCase(f, s);
    case DoubleQuoted => DoubleCase(f, s);
    case DollarBody => DollarCase(f, s);
    case Plain => OtherCase(f, s);
  }

  /** Whatever obeys the laws computes the segments. */
  lemma {:induction false} LawsDetermine(f: Cutter, s: string)
    requires Lawful(f)
    ensures f(s) == RawSegments(s)
    decreases |s|
  {
    hide RawSegments, TokenSpan, KindOf, Tokenize;
    NoTextIsOneSegment();
    LawfulEnds(f, s);
    if s != "" {
      RawSegmentsFirst(s);
      var n := TokenSpan(s).len;
      if KindOf(s).Semicolon? {
        SemicolonSpan(s);
        LawsDetermine(f, s[1..]);
      } else {
        TokenCase(f, s);
        LawsDetermine(f, s[n..]);
        assert s[..n] + s[n..] == s;
        if n == |s| {
          assert s[n..] == "" && s[..n] == s && s + "" == s;
        }
      }
    }
  }

  lemma LawfulEnds(f: Cutter, s: string)
    requires Lawful(f)
    ensures f("") == [""]
    ensures s != "" && s[0] == ';' ==> f(s) == [""] + f(s[1..])
  {
    hide LineLaw, BlockLaw, SingleLaw, DoubleLaw, DollarLaw, OtherLaw;
    if s != "" && s[0] == ';' {
      assert SemicolonLaw(f, s[1..]);
      assert ";" + s[1..] == s;
    }
  }

  /** The characters between the `$`s of a tag: ASCII letters and digits, and the underscore. */
  lemma TagAlphabet(c: char)
    ensures IsTagChar(c) <==>
            c in "abcdefghijklmnopqrstuvwxyz" || c in "ABCDEFGHIJKLMNOPQRSTUVWXYZ" || c in "0123456789_"
  {
    LettersFrom('a', "abcdefghijklmnopqrstuvwxyz", c);
    LettersFrom('A', "ABCDEFGHIJKLMNOPQRSTUVWXYZ", c);
    LettersFrom('0', "0123456789", c);
    assert "0123456789_" == "0123456789" + "_";
    assert c in "0123456789_" <==> c in "0123456789" || c == '_';
  }

  lemma LettersFrom(first: char, letters: string, c: char)
    requires forall k :: 0 <= k < |letters| ==> letters[k] as int == first as int + k
    ensures c in letters <==> first as int <= c as int < first as int + |letters|
  {
    if first as int <= c as int < first as int + |letters| {
      assert letters[c as int - first as int] == c;
    }
  }
}
