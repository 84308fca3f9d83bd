/**
 `stripSqlComments` and `hasExecutableSql` of src/migrations.ts: a second, regular-expression view of the text that the
 splitter lexes, and the grammar of the texts it takes for blank.
 */
module SqlComments {
  import opened JsStrings
  import opened SqlLexer

  /** The characters that `.` does not match and that `$` with the `m` flag stops at. */
  predicate IsLineEnd(c: char) {
    c == '\n' || c == '\r' || c as int == 0x2028 || c as int == 0x2029
  }

  predicate StartsWith2(s: string, a: char, b: char) {
    |s| > 1 && s[0] == a && s[1] == b
  }

  function LineRest(s: string): (n: nat)
    ensures n <= |s|
    ensures n < |s| ==> IsLineEnd(s[n])
    ensures forall k :: 0 <= k < n ==> !IsLineEnd(s[k])
  {
    if s == "" || IsLineEnd(s[0]) then 0 else 1 + LineRest(s[1..])
  }

  /** `replace(/--.*$/gm, "")` */
  function StripLines(s: string): string
    decreases |s|
  {
    if s == "" then ""
    else if StartsWith2(s, '-', '-') then StripLines(s[2 + LineRest(s[2..])..])
    else [s[0]] + StripLines(s[1..])
  }

  /** The same for block comments: a lazy match from an opening mark to the first closing mark after it. */
  function StripBlocks(s: string): string
    decreases |s|
  {
    if s == "" then ""
    else if StartsWith2(s, '/', '*') && BlockSpan(s[2..]).closed then StripBlocks(s[2 + BlockSpan(s[2..]).len..])
    else [s[0]] + StripBlocks(s[1..])
  }

  function StripSqlComments(statement: string): string {
    StripBlocks(StripLines(statement))
  }

  predicate HasExecutableSql(statement: string) {
    |Trim(StripSqlComments(statement))| > 0
  }

  // ---- What the filter takes for blank, in one pass ----

  /**
   How far a block comment reaches for the filter, from behind its opening mark: to the first closing mark that is not
   behind `--` on its line.
   */
  function FilterBlock(b: string): (r: Span)
    ensures r.len <= |b|
    decreases |b|
  {
    if b == "" then Span(0, false)
    else if StartsWith2(b, '-', '-') then Longer(2 + LineRest(b[2..]), FilterBlock(b[2 + LineRest(b[2..])..]))
    else if StartsWith2(b, '*', '/') then Span(2, true)
    else Longer(1, FilterBlock(b[1..]))
  }

  /** White space, line comments up to any line end, and closed block comments, in any order. */
  predicate ReadsAsBlanks(s: string)
    decreases |s|
  {
    if s == "" then true
    else if StartsWith2(s, '-', '-') then ReadsAsBlanks(s[2 + LineRest(s[2..])..])
    else if StartsWith2(s, '/', '*') then
      var r := FilterBlock(s[2..]);
      r.closed && ReadsAsBlanks(s[2 + r.len..])
    else IsSpace(s[0]) && ReadsAsBlanks(s[1..])
  }

  lemma StripLinesNothing()
    ensures StripLines("") == ""
  {
  }

  lemma StripLinesComment(s: string)
    requires StartsWith2(s, '-', '-')
    ensures StripLines(s) == StripLines(s[2 + LineRest(s[2..])..])
  {
  }

  lemma StripLinesOne(s: string)
    requires s != "" && !StartsWith2(s, '-', '-')
    ensures StripLines(s) == [s[0]] + StripLines(s[1..])
  {
  }

  lemma StripBlocksStep(s: string)
    requires s != ""
    ensures StripBlocks(s) ==
            if StartsWith2(s, '/', '*') && BlockSpan(s[2..]).closed then StripBlocks(s[2 + BlockSpan(s[2..]).len..])
            else [s[0]] + StripBlocks(s[1..])
  {
  }

  lemma {:induction false} AfterLineComment(s: string)
    requires StartsWith2(s, '-', '-')
    ensures StripLines(s) == "" || IsLineEnd(StripLines(s)[0])
    decreases |s|
  {
    var n := 2 + LineRest(s[2..]);
    if n < |s| {
      assert s[n..][0] == s[2..][n - 2];
    }
  }

  /** Stripping line comments makes no two-character mark that was not there. */
  lemma NoNewMark(s: string, a: char, b: char)
    requires s != "" && !StartsWith2(s, '-', '-') && !IsLineEnd(b)
    ensures StartsWith2([s[0]] + StripLines(s[1..]), a, b) ==> StartsWith2(s, a, b)
  {
    hide StripLines, IsLineEnd;
    if |s| == 1 {
      StripLinesNothing();
    } else if StartsWith2(s[1..], '-', '-') {
      AfterLineComment(s[1..]);
    } else {
      StripLinesOne(s[1..]);
    }
  }

  lemma MarksAreNoLineEnds()
    ensures !IsLineEnd('/') && !IsLineEnd('*')
  {
  }

  /** Stripping line comments first and looking for a closing mark then is reading the block in one pass. */
  lemma {:induction false} BlockInOnePass(b: string)
    ensures var q, r := StripLines(b), FilterBlock(b);
            && BlockSpan(q).closed == r.closed
            && (r.closed ==> q[BlockSpan(q).len..] == StripLines(b[r.len..]))
    decreases |b|
  {
    hide StripLines, LineRest, IsLineEnd;
    StripLinesNothing();
    if b == "" {
    } else if StartsWith2(b, '-', '-') {
      var n := 2 + LineRest(b[2..]);
      StripLinesComment(b);
      BlockInOnePass(b[n..]);
      assert FilterBlock(b).closed ==> b[n..][FilterBlock(b[n..]).len..] == b[FilterBlock(b).len..];
    } else if StartsWith2(b, '*', '/') {
      StripLinesOne(b);
      StripLinesOne(b[1..]);
      assert StripLines(b) == "*/" + StripLines(b[2..]);
    } else {
      StripLinesOne(b);
      var q := StripLines(b[1..]);
      MarksAreNoLineEnds();
      NoNewMark(b, '*', '/');
      BlockInOnePass(b[1..]);
      assert ([b[0]] + q)[1..] == q;
      assert FilterBlock(b).closed ==> b[1..][FilterBlock(b[1..]).len..] == b[FilterBlock(b).len..];
      assert FilterBlock(b).closed ==> ([b[0]] + q)[1 + BlockSpan(q).len..] == q[BlockSpan(q).len..];
    }
  }

  lemma BlockOpening(s: string)
    requires StartsWith2(s, '/', '*')
    ensures StripLines(s) == "/*" + StripLines(s[2..])
  {
    assert s[1..][1..] == s[2..];
    StripLinesOne(s);
    StripLinesOne(s[1..]);
  }

  lemma StripBlocksOpening(q: string)
    ensures StripBlocks("/*" + q) == if BlockSpan(q).closed then StripBlocks(q[BlockSpan(q).len..])
                                     else "/" + StripBlocks("*" + q)
  {
    hide StripBlocks, BlockSpan;
    var t := "/*" + q;
    assert t[2..] == q && t[1..] == "*" + q;
    assert t[2 + BlockSpan(q).len..] == q[BlockSpan(q).len..];
    StripBlocksStep(t);
  }

  lemma SpaceFirst(c: char, s: string)
    ensures AllSpace([c] + s) <==> IsSpace(c) && AllSpace(s)
  {
    assert ([c] + s)[0] == c;
    assert forall k :: 0 <= k < |s| ==> s[k] == ([c] + s)[k + 1];
  }

  lemma SlashIsNoSpace(s: string)
    ensures !AllSpace("/" + s)
  {
    assert ("/" + s)[0] == '/' && !IsSpace('/');
  }

  lemma {:induction false} BlankInOnePass(s: string)
    ensures AllSpace(StripSqlComments(s)) <==> ReadsAsBlanks(s)
    decreases |s|
  {
    hide StripLines, StripBlocks, BlockSpan, LineRest, AllSpace, IsSpace, IsLineEnd;
    if s == "" {
      NothingIsBlank();
    } else if StartsWith2(s, '-', '-') {
      StripLinesComment(s);
      BlankInOnePass(s[2 + LineRest(s[2..])..]);
    } else if StartsWith2(s, '/', '*') {
      var r := FilterBlock(s[2..]);
      var q := StripLines(s[2..]);
      BlockOpening(s);
      BlockInOnePass(s[2..]);
      StripBlocksOpening(q);
      if r.closed {
        assert s[2..][r.len..] == s[2 + r.len..];
        BlankInOnePass(s[2 + r.len..]);
      } else {
        SlashIsNoSpace(StripBlocks("*" + q));
      }
    } else {
      var q := StripLines(s[1..]);
      StripLinesOne(s);
      MarksAreNoLineEnds();
      NoNewMark(s, '/', '*');
      StripBlocksStep([s[0]] + q);
      assert ([s[0]] + q)[1..] == q;
      SpaceFirst(s[0], StripBlocks(q));
      BlankInOnePass(s[1..]);
    }
  }

  lemma NothingIsBlank()
    ensures StripSqlComments("") == "" && AllSpace("")
  {
  }

  /** For every text, two replacements and a `trim` are one pass: the filter drops exactly the texts read as blanks. */
  lemma FilterReadsInOnePass(s: string)
    ensures HasExecutableSql(s) <==> !ReadsAsBlanks(s)
  {
    hide StripSqlComments, ReadsAsBlanks;
    TrimEmpty(StripSqlComments(s));
    BlankInOnePass(s);
  }
}
