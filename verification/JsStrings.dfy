/** The few JavaScript string operations the routes share: `trim`, and ASCII case mapping. */
module JsStrings {

  /** The code points that `String.prototype.trim` and `\s` treat as white space. */
  predicate IsSpace(c: char) {
    var n := c as int;
    || 9 <= n <= 13 || n == 0x20 || n == 0xA0 || n == 0x1680 || 0x2000 <= n <= 0x200A
    || n == 0x2028 || n == 0x2029 || n == 0x202F || n == 0x205F || n == 0x3000 || n == 0xFEFF
  }

  predicate AllSpace(s: string) {
    forall k :: 0 <= k < |s| ==> IsSpace(s[k])
  }

  function TrimStart(s: string): string {
    if s == "" || !IsSpace(s[0]) then s else TrimStart(s[1..])
  }

  function TrimEnd(s: string): string {
    if s == "" || !IsSpace(s[|s| - 1]) then s else TrimEnd(s[..|s| - 1])
  }

  /** What is left is a suffix that starts with no white space; what went is white space. */
  lemma {:induction false} TrimStartIs(s: string)
    ensures var r := TrimStart(s);
            && |r| <= |s| && r == s[|s| - |r|..]
            && (r == "" || !IsSpace(r[0]))
            && forall i :: 0 <= i < |s| - |r| ==> IsSpace(s[i])
  {
    if s != "" && IsSpace(s[0]) {
      TrimStartIs(s[1..]);
      var r := TrimStart(s[1..]);
      assert forall i :: 0 < i < |s| - |r| ==> s[i] == s[1..][i - 1];
    }
  }

  lemma {:induction false} TrimEndIs(s: string)
    ensures var r := TrimEnd(s);
            && r <= s
            && (r == "" || !IsSpace(r[|r| - 1]))
            && forall i :: |r| <= i < |s| ==> IsSpace(s[i])
  {
    if s != "" && IsSpace(s[|s| - 1]) {
      TrimEndIs(s[..|s| - 1]);
    }
  }

  function Trim(s: string): string {
    TrimEnd(TrimStart(s))
  }

  predicate Trimmed(s: string) {
    s != "" ==> !IsSpace(s[0]) && !IsSpace(s[|s| - 1])
  }

  /** `trim` yields a trimmed string, and trimming it once more changes nothing. */
  lemma TrimIsIdempotent(s: string)
    ensures Trimmed(Trim(s))
    ensures Trim(Trim(s)) == Trim(s)
  {
    var t := TrimStart(s);
    TrimStartIs(s);
    TrimEndIs(t);
    if Trim(s) != "" {
      assert Trim(s)[0] == t[0];
    }
    TrimmedFixed(Trim(s));
  }

  lemma TrimmedFixed(s: string)
    requires Trimmed(s)
    ensures Trim(s) == s
  {
  }

  /** A string trims to nothing exactly when it is all white space. */
  lemma TrimEmpty(s: string)
    ensures Trim(s) == "" <==> forall i :: 0 <= i < |s| ==> IsSpace(s[i])
  {
    var t := TrimStart(s);
    TrimStartIs(s);
    TrimEndIs(t);
    if t != "" {
      assert s[|s| - |t|] == t[0];
    }
  }

  function UpperChar(c: char): char {
    if 'a' <= c <= 'z' then (c as int - 32) as char else c
  }

  function LowerChar(c: char): char {
    if 'A' <= c <= 'Z' then (c as int + 32) as char else c
  }

  /** Case mapping on ASCII letters; every other character is left alone. */
  function Upper(s: string): (r: string)
    ensures |r| == |s| && forall i :: 0 <= i < |s| ==> r[i] == UpperChar(s[i])
  {
    seq(|s|, i requires 0 <= i < |s| => UpperChar(s[i]))
  }

  function Lower(s: string): (r: string)
    ensures |r| == |s| && forall i :: 0 <= i < |s| ==> r[i] == LowerChar(s[i])
  {
    seq(|s|, i requires 0 <= i < |s| => LowerChar(s[i]))
  }

  /** Every maximal run of characters satisfying `p` becomes one `mark`; `inRun` says that one has just been written. */
  function ReplaceRuns(s: string, p: char -> bool, mark: char, inRun: bool): string {
    if s == "" then ""
    else if p(s[0]) then (if inRun then "" else [mark]) + ReplaceRuns(s[1..], p, mark, true)
    else [s[0]] + ReplaceRuns(s[1..], p, mark, false)
  }

  lemma {:induction false} ReplaceNoRuns(s: string, p: char -> bool, mark: char, inRun: bool)
    requires forall k :: 0 <= k < |s| ==> !p(s[k])
    ensures ReplaceRuns(s, p, mark, inRun) == s
  {
    if s != "" {
      ReplaceNoRuns(s[1..], p, mark, false);
    }
  }

  /** Text that does not end in a run is replaced on its own, and a run after it becomes one mark. */
  lemma {:induction false} ReplaceRunsSplit(a: string, t: string, p: char -> bool, mark: char, inRun: bool)
    requires a != "" && !p(a[|a| - 1])
    ensures ReplaceRuns(a + t, p, mark, inRun) == ReplaceRuns(a, p, mark, inRun) + ReplaceRuns(t, p, mark, false)
  {
    assert (a + t)[1..] == a[1..] + t;
    if |a| > 1 {
      assert a[1..][|a| - 2] == a[|a| - 1];
      ReplaceRunsSplit(a[1..], t, p, mark, p(a[0]));
    } else {
      assert a[1..] == "" && a[1..] + t == t;
    }
  }

  lemma {:induction false} ReplaceOneRun(run: string, b: string, p: char -> bool, mark: char, inRun: bool)
    requires forall k :: 0 <= k < |run| ==> p(run[k])
    requires inRun || run != ""
    ensures ReplaceRuns(run + b, p, mark, inRun) == (if inRun then "" else [mark]) + ReplaceRuns(b, p, mark, true)
  {
    if run == "" {
      assert run + b == b;
    } else {
      assert (run + b)[1..] == run[1..] + b;
      ReplaceOneRun(run[1..], b, p, mark, true);
    }
  }

  /** Two texts without runs, the second not empty, and a run between them. */
  lemma ReplaceBetween(a: string, run: string, b: string, p: char -> bool, mark: char)
    requires a != "" && b != "" && run != "" && forall k :: 0 <= k < |run| ==> p(run[k])
    requires (forall k :: 0 <= k < |a| ==> !p(a[k])) && forall k :: 0 <= k < |b| ==> !p(b[k])
    ensures ReplaceRuns(a + run + b, p, mark, false) == a + [mark] + b
  {
    hide ReplaceRuns;
    assert a + run + b == a + (run + b);
    ReplaceRunsSplit(a, run + b, p, mark, false);
    ReplaceOneRun(run, b, p, mark, false);
    ReplaceNoRuns(a, p, mark, false);
    ReplaceNoRuns(b, p, mark, true);
  }

  lemma CasesConcat(s: string, t: string)
    ensures Upper(s + t) == Upper(s) + Upper(t) && Lower(s + t) == Lower(s) + Lower(t)
  {
  }

  lemma CasesUndone(s: string)
    ensures (forall k :: 0 <= k < |s| ==> UpperChar(s[k]) == s[k]) ==> Upper(Lower(s)) == s
    ensures (forall k :: 0 <= k < |s| ==> LowerChar(s[k]) == s[k]) ==> Lower(Upper(s)) == s
  {
  }

  /** White space around trimmed text goes, and nothing else. */
  lemma TrimPadded(before: string, s: string, after: string)
    requires s != "" && Trimmed(s)
    requires AllSpace(before) && AllSpace(after)
    ensures Trim(before + s + after) == s
  {
    hide IsSpace;
    TrimStartPadded(before, s + after);
    assert before + (s + after) == before + s + after;
    TrimEndPadded(s, after);
  }

  lemma {:induction false} TrimStartPadded(before: string, s: string)
    requires s != "" && !IsSpace(s[0]) && AllSpace(before)
    ensures TrimStart(before + s) == s
  {
    if before == "" {
      assert before + s == s;
    } else {
      assert (before + s)[1..] == before[1..] + s;
      TrimStartPadded(before[1..], s);
    }
  }

  lemma {:induction false} TrimEndPadded(s: string, after: string)
    requires s != "" && !IsSpace(s[|s| - 1]) && AllSpace(after)
    ensures TrimEnd(s + after) == s
  {
    if after == "" {
      assert s + after == s;
    } else {
      var k := |after| - 1;
      assert (s + after)[..|s| + k] == s + after[..k];
      TrimEndPadded(s, after[..k]);
    }
  }

  lemma Padded(before: string, x: string, run: string, y: string, after: string)
    requires x != "" && y != "" && !IsSpace(x[0]) && !IsSpace(y[|y| - 1])
    requires AllSpace(before) && AllSpace(after)
    ensures Trim(before + x + run + y + after) == x + run + y
  {
    hide Trim, IsSpace;
    var inner := x + run + y;
    assert inner[0] == x[0] && inner[|inner| - 1] == y[|y| - 1];
    assert before + x + run + y + after == before + inner + after;
    TrimPadded(before, inner, after);
  }
}
