/** The character loop `splitSql` of src/migrations.ts, proved to compute the token grammar's statements. */
module SqlSplit {
  import opened JsStrings
  import opened SqlLexer

  lemma TokenizeStep(s: string, i: nat)
    requires i < |s|
    ensures var n := TokenSpan(s[i..]).len;
            && i + n <= |s|
            && RawSegments(s[i..]) ==
               if KindOf(s[i..]).Semicolon? then [""] + RawSegments(s[i + 1..])
               else Prepend(s[i..i + n], RawSegments(s[i + n..]))
  {
    hide TokenSpan, KindOf, Tokenize;
    var t := s[i..];
    var n := TokenSpan(t).len;
    TokenizeFirst(t);
    if KindOf(t).Semicolon? {
      SemicolonSpan(t);
    }
    assert Tokenize(t)[1..] == Tokenize(t[n..]);
    assert t[n..] == s[i + n..];
    assert t[..n] == s[i..i + n];
  }

  lemma PrependTwice(a: string, b: string, segs: seq<string>)
    requires segs != []
    ensures Prepend(a, Prepend(b, segs)) == Prepend(a + b, segs)
  {
    assert a + b + segs[0] == a + (b + segs[0]);
  }

  lemma KeptNothing()
    ensures Kept([]) == []
  {
  }

  lemma KeptSnoc(pieces: seq<string>, current: string)
    ensures Kept(pieces + [current]) == if Trim(current) == "" then Kept(pieces) else Kept(pieces) + [Trim(current)]
  {
    KeptConcat(pieces, [current]);
    assert Kept([current]) == KeptOne(current);
  }

  lemma PrependNothing(segs: seq<string>)
    requires segs != []
    ensures Prepend("", segs) == segs
  {
    assert "" + segs[0] == segs[0];
  }

  /**
   The five mode variables of the source. `tag == ""` stands for `null`: a dollar tag has at least two
   characters, so the empty string is never one.
   */
  datatype Flags = Flags(single: bool, double: bool, line: bool, block: bool, tag: string)

  const NORMAL := Flags(false, false, false, false, "")

  predicate AtMostOneMode(f: Flags) {
    && (f.single ==> !f.double && !f.line && !f.block && f.tag == "")
    && (f.double ==> !f.line && !f.block && f.tag == "")
    && (f.line ==> !f.block && f.tag == "")
    && (f.block ==> f.tag == "")
  }

  /** In a dollar body that began at `start`, its tag has been read. */
  predicate TagRead(sql: string, i: nat, f: Flags, start: nat) {
    f.tag != "" ==> 2 <= |f.tag| && start + |f.tag| <= i <= |sql| && f.tag == sql[start..start + |f.tag|]
  }

  /** Where the token that position `i` lies inside of ends. */
  function OpenTokenEnd(sql: string, i: nat, f: Flags, start: nat): (e: nat)
    requires i <= |sql| && TagRead(sql, i, f, start)
    ensures i <= e <= |sql|
  {
    if f.line then i + LineSpan(sql[i..]).len
    else if f.block then i + BlockSpan(sql[i..]).len
    else if f.tag != "" then start + DollarSpan(sql[start..], |f.tag|, i - start).len
    else if f.single then i + SingleSpan(sql[i..]).len
    else if f.double then i + DoubleSpan(sql[i..]).len
    else i
  }

  /**
   `pieces` are the finished segments and `current` what has been read of the next one: finishing the open
   token and then lexing the rest by the grammar gives the segments of the whole text.
   */
  ghost predicate Splitting(sql: string, i: nat, current: string, f: Flags, start: nat, pieces: seq<string>) {
    && i <= |sql| && AtMostOneMode(f) && TagRead(sql, i, f, start)
    && var e := OpenTokenEnd(sql, i, f, start);
       RawSegments(sql) == pieces + Prepend(current + sql[i..e], RawSegments(sql[e..]))
  }

  lemma AtRest(sql: string, i: nat, current: string, start: nat, pieces: seq<string>)
    requires Splitting(sql, i, current, NORMAL, start, pieces)
    ensures RawSegments(sql) == pieces + Prepend(current, RawSegments(sql[i..]))
  {
    assert current + sql[i..i] == current;
  }

  lemma SplittingStarts(sql: string)
    ensures Splitting(sql, 0, "", NORMAL, 0, [])
  {
    assert sql[0..] == sql && "" + sql[0..0] == "";
    PrependNothing(RawSegments(sql));
  }

  lemma SplittingEnds(sql: string, current: string, f: Flags, start: nat, pieces: seq<string>)
    requires Splitting(sql, |sql|, current, f, start, pieces)
    ensures RawSegments(sql) == pieces + [current]
  {
    assert sql[|sql|..] == "" && RawSegments("") == [""];
    assert current + sql[|sql|..|sql|] + "" == current;
  }

  /** Reading on to `j` inside the open token, whose end stays where it was. */
  lemma ReadOn(sql: string, i: nat, j: nat, current: string, f: Flags, f': Flags, start: nat, pieces: seq<string>)
    requires Splitting(sql, i, current, f, start, pieces)
    requires i <= j <= |sql| && AtMostOneMode(f') && TagRead(sql, j, f', start)
    requires OpenTokenEnd(sql, j, f', start) == OpenTokenEnd(sql, i, f, start)
    ensures Splitting(sql, j, current + sql[i..j], f', start, pieces)
  {
    hide RawSegments, LineSpan, BlockSpan, DollarSpan, SingleSpan, DoubleSpan;
    var e := OpenTokenEnd(sql, i, f, start);
    assert current + sql[i..j] + sql[j..e] == current + sql[i..e] by { assert sql[i..j] + sql[j..e] == sql[i..e]; }
  }

  lemma InLine(sql: string, i: nat, current: string, f: Flags, start: nat, pieces: seq<string>)
    requires i < |sql| && f.line && Splitting(sql, i, current, f, start, pieces)
    ensures Splitting(sql, i + 1, current + [sql[i]], f.(line := sql[i] != '\n'), start, pieces)
  {
    assert sql[i..][1..] == sql[i + 1..] && sql[i..i + 1] == [sql[i]];
    ReadOn(sql, i, i + 1, current, f, f.(line := sql[i] != '\n'), start, pieces);
  }

  lemma InBlock(sql: string, i: nat, current: string, f: Flags, start: nat, pieces: seq<string>)
    requires i < |sql| && f.block && Splitting(sql, i, current, f, start, pieces)
    ensures var closes := i + 1 < |sql| && sql[i] == '*' && sql[i + 1] == '/';
            if closes then Splitting(sql, i + 2, current + [sql[i]] + [sql[i + 1]], f.(block := false), start, pieces)
            else Splitting(sql, i + 1, current + [sql[i]], f, start, pieces)
  {
    assert sql[i..][1..] == sql[i + 1..] && sql[i..i + 1] == [sql[i]];
    if i + 1 < |sql| && sql[i] == '*' && sql[i + 1] == '/' {
      assert current + sql[i..i + 2] == current + [sql[i]] + [sql[i + 1]];
      ReadOn(sql, i, i + 2, current, f, f.(block := false), start, pieces);
    } else {
      ReadOn(sql, i, i + 1, current, f, f, start, pieces);
    }
  }

  lemma InDollar(sql: string, i: nat, current: string, f: Flags, start: nat, pieces: seq<string>)
    requires i < |sql| && f.tag != "" && Splitting(sql, i, current, f, start, pieces)
    ensures var closes := sql[i] == '$' && sql[i - |f.tag| + 1..i + 1] == f.tag;
            Splitting(sql, i + 1, current + [sql[i]], if closes then f.(tag := "") else f, start, pieces)
  {
    hide RawSegments, LineSpan, BlockSpan, SingleSpan, DoubleSpan;
    var closes := sql[i] == '$' && sql[i - |f.tag| + 1..i + 1] == f.tag;
    assert sql[start..][i - start + 1 - |f.tag|..i - start + 1] == sql[i - |f.tag| + 1..i + 1];
    assert sql[start..][..|f.tag|] == f.tag;
    assert sql[i..i + 1] == [sql[i]];
    ReadOn(sql, i, i + 1, current, f, if closes then f.(tag := "") else f, start, pieces);
  }

  lemma InSingle(sql: string, i: nat, current: string, f: Flags, start: nat, pieces: seq<string>)
    requires i < |sql| && f.single && Splitting(sql, i, current, f, start, pieces)
    ensures if sql[i] != '\'' then Splitting(sql, i + 1, current + [sql[i]], f, start, pieces)
            else if i + 1 < |sql| && sql[i + 1] == '\'' then
              Splitting(sql, i + 2, current + [sql[i]] + [sql[i + 1]], f, start, pieces)
            else Splitting(sql, i + 1, current + [sql[i]], f.(single := false), start, pieces)
  {
    assert sql[i..][1..] == sql[i + 1..] && sql[i..i + 1] == [sql[i]];
    if sql[i] != '\'' {
      ReadOn(sql, i, i + 1, current, f, f, start, pieces);
    } else if i + 1 < |sql| && sql[i + 1] == '\'' {
      assert sql[i..][2..] == sql[i + 2..];
      assert current + sql[i..i + 2] == current + [sql[i]] + [sql[i + 1]];
      ReadOn(sql, i, i + 2, current, f, f, start, pieces);
    } else {
      ReadOn(sql, i, i + 1, current, f, f.(single := false), start, pieces);
    }
  }

  lemma InDouble(sql: string, i: nat, current: string, f: Flags, start: nat, pieces: seq<string>)
    requires i < |sql| && f.double && Splitting(sql, i, current, f, start, pieces)
    ensures Splitting(sql, i + 1, current + [sql[i]], f.(double := sql[i] != '"'), start, pieces)
  {
    assert sql[i..][1..] == sql[i + 1..] && sql[i..i + 1] == [sql[i]];
    ReadOn(sql, i, i + 1, current, f, f.(double := sql[i] != '"'), start, pieces);
  }

  /** Outside every token, the first `j - i` characters of the token at `i` are read, leaving mode `f`. */
  lemma Opens(sql: string, i: nat, j: nat, current: string, f: Flags, pieces: seq<string>, start: nat)
    requires i < j <= |sql| && Splitting(sql, i, current, NORMAL, start, pieces) && !KindOf(sql[i..]).Semicolon?
    requires AtMostOneMode(f) && TagRead(sql, j, f, i)
    requires OpenTokenEnd(sql, j, f, i) == i + TokenSpan(sql[i..]).len
    ensures Splitting(sql, j, current + sql[i..j], f, i, pieces)
  {
    hide KindOf, TokenSpan, RawSegments, OpenTokenEnd;
    AtRest(sql, i, current, start, pieces);
    TokenizeStep(sql, i);
    var e := i + TokenSpan(sql[i..]).len;
    PrependTwice(current, sql[i..e], RawSegments(sql[e..]));
    assert current + sql[i..j] + sql[j..e] == current + sql[i..e] by { assert sql[i..j] + sql[j..e] == sql[i..e]; }
  }

  lemma OpensComment(sql: string, i: nat, current: string, f: Flags, pieces: seq<string>, start: nat)
    requires i + 1 < |sql| && Splitting(sql, i, current, NORMAL, start, pieces)
    requires || (KindOf(sql[i..]).LineComment? && f == NORMAL.(line := true))
             || (KindOf(sql[i..]).BlockComment? && f == NORMAL.(block := true))
    ensures Splitting(sql, i + 2, current + [sql[i]] + [sql[i + 1]], f, i, pieces)
  {
    assert sql[i..][2..] == sql[i + 2..];
    assert current + sql[i..i + 2] == current + [sql[i]] + [sql[i + 1]];
    Opens(sql, i, i + 2, current, f, pieces, start);
  }

  lemma OpensDollar(sql: string, i: nat, current: string, pieces: seq<string>, start: nat)
    requires i < |sql| && Splitting(sql, i, current, NORMAL, start, pieces) && KindOf(sql[i..]).DollarBody?
    ensures var n := TagLen(sql[i..]);
            && i + n <= |sql|
            && Splitting(sql, i + n, current + sql[i..i + n], NORMAL.(tag := sql[i..i + n]), i, pieces)
  {
    hide Splitting, DollarSpan;
    var n := TagLen(sql[i..]);
    Opens(sql, i, i + n, current, NORMAL.(tag := sql[i..i + n]), pieces, start);
  }

  lemma OpensQuote(sql: string, i: nat, current: string, f: Flags, pieces: seq<string>, start: nat)
    requires i < |sql| && Splitting(sql, i, current, NORMAL, start, pieces)
    requires match KindOf(sql[i..])
             case SingleQuoted => f == NORMAL.(single := true)
             case DoubleQuoted => f == NORMAL.(double := true)
             case Plain => f == NORMAL
             case _ => false
    ensures Splitting(sql, i + 1, current + [sql[i]], f, i, pieces)
  {
    assert sql[i..][1..] == sql[i + 1..] && sql[i..i + 1] == [sql[i]];
    Opens(sql, i, i + 1, current, f, pieces, start);
  }

  /** A `;` token ends the segment being read and starts an empty one. */
  lemma Cuts(sql: string, i: nat, current: string, pieces: seq<string>, start: nat)
    requires i < |sql| && Splitting(sql, i, current, NORMAL, start, pieces) && KindOf(sql[i..]).Semicolon?
    ensures Splitting(sql, i + 1, "", NORMAL, start, pieces + [current])
  {
    TokenizeStep(sql, i);
    PrependNothing(RawSegments(sql[i + 1..]));
    assert current + sql[i..i] + "" == current;
    assert "" + sql[i + 1..i + 1] == "";
  }

  method SplitSql(sql: string) returns (statements: seq<string>)
    ensures statements == Statements(sql)
  {
    hide Splitting, Kept, Tokenize, Segments, TokenSpan, TrimStart, TrimEnd, TagRun;
    statements := [];
    var current := "";
    var inSingleQuote, inDoubleQuote, inLineComment, inBlockComment := false, false, false, false;
    var dollarQuoteTag := "";
    ghost var pieces: seq<string> := [];
    ghost var start: nat := 0;
    SplittingStarts(sql);
    KeptNothing();
    var i := 0;
    while i < |sql|
      invariant 0 <= i <= |sql|
      invariant AtMostOneMode(Flags(inSingleQuote, inDoubleQuote, inLineComment, inBlockComment, dollarQuoteTag))
      invariant dollarQuoteTag != "" ==> |dollarQuoteTag| <= i
      invariant Splitting(sql, i, current,
                          Flags(inSingleQuote, inDoubleQuote, inLineComment, inBlockComment, dollarQuoteTag),
                          start, pieces)
      invariant statements == Kept(pieces)
      decreases |sql| - i
    {
      var c := sql[i];
      var hasNext := i + 1 < |sql|;
      ghost var f := Flags(inSingleQuote, inDoubleQuote, inLineComment, inBlockComment, dollarQuoteTag);

      if inLineComment {
        InLine(sql, i, current, f, start, pieces);
        current := current + [c];
        if c == '\n' {
          inLineComment := false;
        }
        i := i + 1;
        continue;
      }

      if inBlockComment {
        InBlock(sql, i, current, f, start, pieces);
        current := current + [c];
        if c == '*' && hasNext && sql[i + 1] == '/' {
          current := current + [sql[i + 1]];
          i := i + 1;
          inBlockComment := false;
        }
        i := i + 1;
        continue;
      }

      if dollarQuoteTag != "" {
        InDollar(sql, i, current, f, start, pieces);
        current := current + [c];
        if c == '$' {
          var tagLength := |dollarQuoteTag|;
          var possibleTag := sql[i - tagLength + 1..i + 1];
          if possibleTag == dollarQuoteTag {
            dollarQuoteTag := "";
          }
        }
        i := i + 1;
        continue;
      }

      if !inSingleQuote && !inDoubleQuote {
        if c == '-' && hasNext && sql[i + 1] == '-' {
          OpensComment(sql, i, current, f.(line := true), pieces, start);
          start := i;
          current := current + [c] + [sql[i + 1]];
          i := i + 2;
          inLineComment := true;
          continue;
        }
        if c == '/' && hasNext && sql[i + 1] == '*' {
          OpensComment(sql, i, current, f.(block := true), pieces, start);
          start := i;
          current := current + [c] + [sql[i + 1]];
          i := i + 2;
          inBlockComment := true;
          continue;
        }
        if c == '$' {
          var tagLength := TagLen(sql[i..]);
          if tagLength > 0 {
            OpensDollar(sql, i, current, pieces, start);
            start := i;
            dollarQuoteTag := sql[i..i + tagLength];
            current := current + dollarQuoteTag;
            i := i + tagLength;
            continue;
          }
        }
      }

      if c == '\'' && !inDoubleQuote {
        if inSingleQuote {
          InSingle(sql, i, current, f, start, pieces);
        } else {
          OpensQuote(sql, i, current, f.(single := true), pieces, start);
          start := i;
        }
        current := current + [c];
        if inSingleQuote && hasNext && sql[i + 1] == '\'' {
          current := current + [sql[i + 1]];
          i := i + 1;
        } else {
          inSingleQuote := !inSingleQuote;
        }
        i := i + 1;
        continue;
      }

      if c == '"' && !inSingleQuote {
        if inDoubleQuote {
          InDouble(sql, i, current, f, start, pieces);
        } else {
          OpensQuote(sql, i, current, f.(double := true), pieces, start);
          start := i;
        }
        current := current + [c];
        inDoubleQuote := !inDoubleQuote;
        i := i + 1;
        continue;
      }

      if c == ';' && !inSingleQuote && !inDoubleQuote {
        Cuts(sql, i, current, pieces, start);
        KeptSnoc(pieces, current);
        var trimmed := Trim(current);
        if |trimmed| > 0 {
          statements := statements + [trimmed];
        }
        pieces := pieces + [current];
        current := "";
        i := i + 1;
        continue;
      }

      if inSingleQuote {
        InSingle(sql, i, current, f, start, pieces);
      } else if inDoubleQuote {
        InDouble(sql, i, current, f, start, pieces);
      } else {
        OpensQuote(sql, i, current, f, pieces, start);
        start := i;
      }
      current := current + [c];
      i := i + 1;
    }
    SplittingEnds(sql, current,
                  Flags(inSingleQuote, inDoubleQuote, inLineComment, inBlockComment, dollarQuoteTag), start, pieces);
    KeptSnoc(pieces, current);
    var trimmed := Trim(current);
    if |trimmed| > 0 {
      statements := statements + [trimmed];
    }
  }
}
