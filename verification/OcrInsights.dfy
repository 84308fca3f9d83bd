/**
 The OCR insights of src/ocr/insights.ts: which registry fields no document gives, on which the documents disagree,
 and one normalized value per field.
 */
module OcrInsights {
  import opened Options
  import opened JsStrings
  import opened Sorting
  import opened JsValues

  /** A registry entry, and one OCR result. */
  datatype FieldDef = FieldDef(key: string, required: bool)

  datatype Doc = Doc(id: string, extracted: Value)

  datatype Insights = Insights(missing: seq<string>, conflicting: seq<string>, normalized: map<string, string>)

  /** `String(n)` of a number. */
  type Show = real -> string

  // ---- Normal text ----

  /** `.trim().replace(/\s+/g, " ").toLowerCase()` */
  function NormalText(s: string): string {
    Lower(ReplaceRuns(Trim(s), IsSpace, ' ', false))
  }

  /** Single blanks, no other white space. */
  predicate SingleSpaced(s: string) {
    && (forall k :: 0 <= k < |s| && IsSpace(s[k]) ==> s[k] == ' ')
    && forall k :: 0 <= k < |s| - 1 ==> !(s[k] == ' ' && s[k + 1] == ' ')
  }

  predicate IsNormal(s: string) {
    s != "" && Trimmed(s) && SingleSpaced(s) && forall k :: 0 <= k < |s| ==> LowerChar(s[k]) == s[k]
  }

  /** Numbers print without blanks and capitals. */
  ghost predicate PrintsPlain(show: Show) {
    forall n :: IsNormal(show(n))
  }

  lemma {:induction false} RunsToBlanks(s: string, inRun: bool)
    ensures var r := ReplaceRuns(s, IsSpace, ' ', inRun);
            && SingleSpaced(r)
            && (inRun && r != "" ==> r[0] != ' ')
            && (s != "" && !IsSpace(s[0]) ==> r != "" && r[0] == s[0])
            && (s != "" && !IsSpace(s[|s| - 1]) ==> r != "" && r[|r| - 1] == s[|s| - 1])
  {
    if s != "" {
      var rest := ReplaceRuns(s[1..], IsSpace, ' ', IsSpace(s[0]));
      RunsToBlanks(s[1..], IsSpace(s[0]));
      var first := if !IsSpace(s[0]) then [s[0]] else if inRun then "" else " ";
      assert ReplaceRuns(s, IsSpace, ' ', inRun) == first + rest;
      if |s| > 1 {
        assert s[1..][|s| - 2] == s[|s| - 1];
      }
    }
  }

  lemma {:induction false} SingleSpacedFixed(s: string, inRun: bool)
    requires SingleSpaced(s) && (inRun && s != "" ==> s[0] != ' ')
    ensures ReplaceRuns(s, IsSpace, ' ', inRun) == s
  {
    if s != "" {
      assert |s| > 1 ==> !(s[0] == ' ' && s[0 + 1] == ' ');
      SingleSpacedFixed(s[1..], IsSpace(s[0]));
    }
  }

  lemma LowerKeepsSpaces(c: char)
    ensures IsSpace(LowerChar(c)) == IsSpace(c) && (LowerChar(c) == ' ' <==> c == ' ')
    ensures LowerChar(LowerChar(c)) == LowerChar(c)
  {
  }

  /** Normalizing gives normal text, unless the text is all white space; normal text normalizes to itself. */
  lemma NormalTextIsNormal(s: string)
    ensures Trim(s) != "" ==> IsNormal(NormalText(s))
    ensures IsNormal(s) ==> NormalText(s) == s && Trim(s) == s
  {
    hide Trim, ReplaceRuns, IsSpace;
    TrimIsIdempotent(s);
    var t := ReplaceRuns(Trim(s), IsSpace, ' ', false);
    RunsToBlanks(Trim(s), false);
    forall c: char
      ensures IsSpace(LowerChar(c)) == IsSpace(c) && (LowerChar(c) == ' ' <==> c == ' ')
      ensures LowerChar(LowerChar(c)) == LowerChar(c)
    {
      LowerKeepsSpaces(c);
    }
    if IsNormal(s) {
      TrimmedFixed(s);
      SingleSpacedFixed(s, false);
      assert Lower(s) == s;
    }
  }

  /** Two words read alike in any case, with any white space between and around them. */
  lemma WordsReadAlike(a: string, b: string, run: string, before: string, after: string)
    requires IsNormal(a) && IsNormal(b) && run != "" && AllSpace(run)
    requires (forall k :: 0 <= k < |a| ==> !IsSpace(a[k])) && forall k :: 0 <= k < |b| ==> !IsSpace(b[k])
    requires AllSpace(before) && AllSpace(after)
    ensures NormalText(before + Upper(a) + run + Upper(b) + after) == a + " " + b
    ensures NormalText(before + a + run + b + after) == a + " " + b
  {
    hide NormalText, IsNormal, IsSpace, Upper;
    WordsRead(a, b, run, before, after, a, b);
    WordsRead(a, b, run, before, after, Upper(a), Upper(b));
  }

  lemma WordsRead(a: string, b: string, run: string, before: string, after: string, x: string, y: string)
    requires IsNormal(a) && IsNormal(b) && run != "" && AllSpace(run)
    requires (forall k :: 0 <= k < |a| ==> !IsSpace(a[k])) && forall k :: 0 <= k < |b| ==> !IsSpace(b[k])
    requires AllSpace(before) && AllSpace(after)
    requires (x == a && y == b) || (x == Upper(a) && y == Upper(b))
    ensures NormalText(before + x + run + y + after) == a + " " + b
  {
    hide Trim, ReplaceRuns, IsSpace, IsNormal, Upper, Lower;
    NormalWord(a, x);
    NormalWord(b, y);
    Padded(before, x, run, y, after);
    ReplaceBetween(x, run, y, IsSpace, ' ');
    CasesConcat(x + " ", y);
    CasesConcat(x, " ");
    BlankIsLower();
  }

  lemma BlankIsLower()
    ensures Lower(" ") == " "
  {
  }

  lemma NormalWord(a: string, x: string)
    requires IsNormal(a) && (forall k :: 0 <= k < |a| ==> !IsSpace(a[k])) && (x == a || x == Upper(a))
    ensures Lower(x) == a && x != "" && forall k :: 0 <= k < |x| ==> !IsSpace(x[k])
  {
    CasesUndone(a);
    UpperKeepsSpaces(a);
    assert Lower(a) == a;
  }

  lemma UpperKeepsSpaces(a: string)
    ensures forall k :: 0 <= k < |a| ==> IsSpace(Upper(a)[k]) == IsSpace(a[k])
  {
  }

  // ---- One value, one document ----

  lemma {:induction false} LookupIsPart(fields: seq<Field>, name: string)
    ensures || Lookup(fields, name) == Undefined
            || exists k :: 0 <= k < |fields| && fields[k].value == Lookup(fields, name)
  {
    if fields != [] && fields[0].name != name {
      LookupIsPart(fields[1..], name);
      if k :| 0 <= k < |fields| - 1 && fields[1..][k].value == Lookup(fields[1..], name) {
        assert fields[k + 1].value == Lookup(fields, name);
      }
    }
  }

  function NormalizeValue(v: Value, show: Show): Option<string> {
    match v
    case Undefined => None
    case Null => None
    case Text(s) => if Trim(s) != "" then Some(NormalText(s)) else None
    case Number(n) => Some(show(n))
    case Bool(b) => Some(if b then "true" else "false")
    case Array(items) => if items == [] then None else NormalizeValue(items[0], show)
    case Object(fields) =>
      LookupIsPart(fields, "normalized");
      LookupIsPart(fields, "value");
      if Lookup(fields, "normalized") != Undefined then NormalizeValue(Lookup(fields, "normalized"), show)
      else if Lookup(fields, "value") != Undefined then NormalizeValue(Lookup(fields, "value"), show)
      else None
  }

  /** `v && typeof v === "object"` */
  predicate IsObject(v: Value) {
    v.Array? || v.Object?
  }

  function ExtractFieldValue(extracted: Value, name: string, show: Show): Option<string> {
    var fields, normalized := Get(extracted, "fields"), Get(extracted, "normalized");
    if !IsObject(extracted) then None
    else if Get(extracted, name) != Undefined then NormalizeValue(Get(extracted, name), show)
    else if IsObject(fields) && Get(fields, name) != Undefined then NormalizeValue(Get(fields, name), show)
    else if IsObject(normalized) && Get(normalized, name) != Undefined then NormalizeValue(Get(normalized, name), show)
    else None
  }

  /** Whatever is found is normal text, which reads back as itself. */
  lemma {:induction false} ValueIsNormal(v: Value, show: Show)
    requires PrintsPlain(show)
    ensures var r := NormalizeValue(v, show);
            r.Some? ==> IsNormal(r.value) && NormalizeValue(Text(r.value), show) == r
    decreases v
  {
    hide IsNormal, NormalText, Trim, Lookup;
    var r := NormalizeValue(v, show);
    match v {
      case Text(s) =>
        NormalTextIsNormal(s);
      case Bool(_) =>
        BoolsAreNormal();
      case Array(items) =>
        if items != [] {
          ValueIsNormal(items[0], show);
        }
      case Object(fields) =>
        LookupIsPart(fields, "normalized");
        LookupIsPart(fields, "value");
        if Lookup(fields, "normalized") != Undefined {
          ValueIsNormal(Lookup(fields, "normalized"), show);
        } else if Lookup(fields, "value") != Undefined {
          ValueIsNormal(Lookup(fields, "value"), show);
        }
      case _ =>
    }
    if r.Some? {
      NormalTextIsNormal(r.value);
      NormalIsNonempty(r.value);
    }
  }

  lemma NormalIsNonempty(s: string)
    requires IsNormal(s)
    ensures s != ""
  {
  }

  lemma BoolsAreNormal()
    ensures IsNormal("true") && IsNormal("false")
  {
  }

  // ---- What the documents give for a field ----

  function ValueOf(doc: Doc, key: string, show: Show): set<string> {
    match ExtractFieldValue(doc.extracted, key, show)
    case None => {}
    case Some(v) => if v == "" then {} else {v}
  }

  /** The distinct values that some document gives for the field. */
  function Values(docs: seq<Doc>, key: string, show: Show): set<string> {
    if docs == [] then {} else Values(docs[..|docs| - 1], key, show) + ValueOf(docs[|docs| - 1], key, show)
  }

  lemma {:induction false} ValuesAre(docs: seq<Doc>, key: string, show: Show, v: string)
    ensures v in Values(docs, key, show) <==>
            exists k :: 0 <= k < |docs| && v in ValueOf(docs[k], key, show)
  {
    hide ValueOf;
    if docs != [] {
      var n := |docs| - 1;
      ValuesAre(docs[..n], key, show, v);
      if k :| 0 <= k < n && v in ValueOf(docs[..n][k], key, show) {
        assert v in ValueOf(docs[k], key, show);
      }
    }
  }

  /** That is: what some document reads as, other than no text. */
  lemma ValuesMean(docs: seq<Doc>, key: string, show: Show, v: string)
    ensures v in Values(docs, key, show) <==>
            v != "" && exists d :: d in docs && ExtractFieldValue(d.extracted, key, show) == Some(v)
  {
    hide ExtractFieldValue;
    ValuesAre(docs, key, show, v);
    if d :| d in docs && ExtractFieldValue(d.extracted, key, show) == Some(v) && v != "" {
      var k :| 0 <= k < |docs| && docs[k] == d;
      assert v in ValueOf(docs[k], key, show);
    }
  }

  lemma ValuesIgnoreOrder(docs: seq<Doc>, docs': seq<Doc>, key: string, show: Show)
    requires multiset(docs) == multiset(docs')
    ensures Values(docs, key, show) == Values(docs', key, show)
  {
    hide ValueOf, Values;
    assert forall d :: d in docs <==> d in multiset(docs);
    assert forall d :: d in docs' <==> d in multiset(docs');
    forall v
      ensures v in Values(docs, key, show) <==> v in Values(docs', key, show)
    {
      ValuesAre(docs, key, show, v);
      ValuesAre(docs', key, show, v);
      if k :| 0 <= k < |docs| && v in ValueOf(docs[k], key, show) {
        assert docs[k] in docs';
      }
      if k :| 0 <= k < |docs'| && v in ValueOf(docs'[k], key, show) {
        assert docs'[k] in docs;
      }
    }
  }

  // ---- toSortedUnique ----

  function Elements(s: seq<string>): set<string> {
    set x | x in s
  }

  /** `Array.from(new Set(values))` */
  function Unique(values: seq<string>): (r: seq<string>)
    ensures forall x :: x in r <==> x in values
    ensures forall i, j :: 0 <= i < j < |r| ==> r[i] != r[j]
  {
    if values == [] then []
    else
      var init, last := values[..|values| - 1], values[|values| - 1];
      assert values == init + [last];
      var r := Unique(init);
      if last in init then r else r + [last]
  }

  function ToSortedUnique(values: seq<string>, locale: Collator): seq<string> {
    Sort(Unique(values), NameLe(Itself, locale))
  }

  /** `s` is the elements of `e`, each once, in order. */
  ghost predicate Lists(s: seq<string>, e: set<string>, locale: Collator) {
    (forall x :: x in s <==> x in e) && Ascending(s, Itself, locale)
  }

  lemma SortedUniqueLists(values: seq<string>, locale: Collator)
    requires IsCollator(locale)
    ensures Lists(ToSortedUnique(values, locale), Elements(values), locale)
  {
    hide Unique, Sort, IsCollator, Ascending;
    assert DistinctNames(Unique(values), Itself);
    SortAscends(Unique(values), Itself, locale);
  }

  lemma ListedDistinct(s: seq<string>, e: set<string>, locale: Collator)
    requires IsCollator(locale) && Lists(s, e, locale)
    ensures forall i, j :: 0 <= i < j < |s| ==> s[i] != s[j] && locale(s[i], s[j]) <= 0
  {
    forall i, j | 0 <= i < j < |s|
      ensures s[i] != s[j] && locale(s[i], s[j]) <= 0
    {
      assert locale(Itself(s[i]), Itself(s[j])) < 0;
      assert locale(s[i], s[i]) == 0;
    }
  }

  /** There is one way to list a set. */
  lemma ListedOnce(s: seq<string>, t: seq<string>, e: set<string>, locale: Collator)
    requires IsCollator(locale) && Lists(s, e, locale) && Lists(t, e, locale)
    ensures s == t
  {
    hide IsCollator, Ascending;
    AscendingUnique(s, t, Itself, locale);
  }

  // ---- resolveNormalizedValue ----

  datatype Entry = Entry(value: string, count: nat)

  /** More frequent first, ties by `localeCompare`. */
  function Ranked(locale: Collator): (Entry, Entry) -> bool {
    (a: Entry, b: Entry) => if a.count != b.count then a.count > b.count else locale(a.value, b.value) <= 0
  }

  lemma RankedOrders(locale: Collator)
    requires IsCollator(locale)
    ensures TotalPreorder(Ranked(locale))
  {
    hide IsCollator;
    CollatorOrders(locale);
    var le := CollatorLe(locale);
    forall a: Entry, b: Entry
      ensures Ranked(locale)(a, b) || Ranked(locale)(b, a)
    {
      assert le(a.value, b.value) || le(b.value, a.value);
    }
    forall a: Entry, b: Entry, c: Entry | Ranked(locale)(a, b) && Ranked(locale)(b, c)
      ensures Ranked(locale)(a, c)
    {
      assert le(a.value, b.value) && le(b.value, c.value) ==> le(a.value, c.value);
    }
  }

  lemma RankedMeans(a: Entry, b: Entry, locale: Collator)
    requires Ranked(locale)(a, b)
    ensures a.count > b.count || (a.count == b.count && locale(a.value, b.value) <= 0)
  {
  }

  /** The most frequent value; among the most frequent ones, the least. */
  method ResolveNormalizedValue(values: seq<string>, locale: Collator) returns (r: Option<string>)
    requires IsCollator(locale)
    ensures r.None? <==> values == []
    ensures r.Some? ==> r.value in values
    ensures r.Some? ==> forall w :: w in values ==>
              || multiset(values)[r.value] > multiset(values)[w]
              || (multiset(values)[r.value] == multiset(values)[w] && locale(r.value, w) <= 0)
  {
    hide IsCollator, Sort, Ranked;
    if values == [] {
      return None;
    }
    var keys: seq<string>, counts: map<string, nat> := [], map[];
    var i := 0;
    while i < |values|
      invariant 0 <= i <= |values|
      invariant forall w :: w in keys <==> w in values[..i]
      invariant forall w :: w in keys <==> w in counts
      invariant forall w :: w in counts ==> counts[w] == multiset(values[..i])[w]
    {
      assert values[..i + 1] == values[..i] + [values[i]];
      if values[i] !in counts {
        keys := keys + [values[i]];
        counts := counts[values[i] := 1];
      } else {
        counts := counts[values[i] := counts[values[i]] + 1];
      }
      i := i + 1;
    }
    assert values[..i] == values;
    assert values[0] in keys;
    var entries := seq(|keys|, k requires 0 <= k < |keys| && keys[k] in counts => Entry(keys[k], counts[keys[k]]));
    var sorted := Sort(entries, Ranked(locale));
    FirstIsBest(entries, locale);
    r := Some(sorted[0].value);
    assert sorted[0] in entries;
    forall w | w in values
      ensures || multiset(values)[r.value] > multiset(values)[w]
              || (multiset(values)[r.value] == multiset(values)[w] && locale(r.value, w) <= 0)
    {
      var k :| 0 <= k < |keys| && keys[k] == w;
      assert entries[k] == Entry(w, multiset(values)[w]);
      RankedMeans(sorted[0], entries[k], locale);
    }
  }

  lemma FirstIsBest(entries: seq<Entry>, locale: Collator)
    requires IsCollator(locale) && entries != []
    ensures var sorted := Sort(entries, Ranked(locale));
            sorted != [] && sorted[0] in entries && forall e :: e in entries ==> Ranked(locale)(sorted[0], e)
  {
    hide Sort, IsCollator;
    var le := Ranked(locale);
    var sorted := Sort(entries, le);
    RankedOrders(locale);
    SortSorts(entries, le);
    assert |multiset(sorted)| == |sorted| && |multiset(entries)| == |entries|;
    assert sorted[0] in multiset(sorted);
    forall e | e in entries
      ensures le(sorted[0], e)
    {
      assert e in multiset(entries);
      assert e in sorted;
      var k :| 0 <= k < |sorted| && sorted[k] == e;
      assert le(e, e) || le(e, e);
    }
  }

  // ---- buildOcrInsights ----

  predicate InRegistry(registry: seq<FieldDef>, key: string) {
    exists i :: 0 <= i < |registry| && registry[i].key == key
  }

  predicate Required(registry: seq<FieldDef>, key: string) {
    exists i :: 0 <= i < |registry| && registry[i] == FieldDef(key, true)
  }

  /** `v` is the least of the values. */
  ghost predicate LeastOf(v: string, values: set<string>, locale: Collator) {
    v in values && forall w :: w in values ==> locale(v, w) <= 0
  }

  /**
   Missing are the required fields without a value, conflicting the fields with two or more; every field with a value
   has its least one.
   */
  ghost predicate Judged(r: Insights, docs: seq<Doc>, registry: seq<FieldDef>, locale: Collator, show: Show) {
    && (forall key :: key in r.missing <==> Required(registry, key) && Values(docs, key, show) == {})
    && (forall key :: key in r.conflicting <==> InRegistry(registry, key) && |Values(docs, key, show)| > 1)
    && (forall key :: key in r.normalized <==> InRegistry(registry, key) && Values(docs, key, show) != {})
    && (forall key :: key in r.normalized ==> LeastOf(r.normalized[key], Values(docs, key, show), locale))
  }

  /** What the insights are; the two lists come in order, each field once. */
  ghost predicate IsInsights(r: Insights, docs: seq<Doc>, registry: seq<FieldDef>, locale: Collator, show: Show) {
    Listed(r.missing, locale) && Listed(r.conflicting, locale) && Judged(r, docs, registry, locale, show)
  }

  ghost predicate Listed(s: seq<string>, locale: Collator) {
    Lists(s, Elements(s), locale)
  }

  /** The insights are determined by the values that the documents give for the registry's fields. */
  lemma InsightsUnique(r: Insights, docs: seq<Doc>, r': Insights, docs': seq<Doc>, registry: seq<FieldDef>,
                       locale: Collator, show: Show)
    requires IsCollator(locale)
    requires IsInsights(r, docs, registry, locale, show) && IsInsights(r', docs', registry, locale, show)
    requires forall key :: Values(docs, key, show) == Values(docs', key, show)
    ensures r == r'
  {
    hide Values, Required, InRegistry, Lists, IsCollator;
    assert Elements(r.missing) == Elements(r'.missing);
    assert Elements(r.conflicting) == Elements(r'.conflicting);
    ListedOnce(r.missing, r'.missing, Elements(r.missing), locale);
    ListedOnce(r.conflicting, r'.conflicting, Elements(r.conflicting), locale);
    assert r.normalized.Keys == r'.normalized.Keys;
    CollatorOrders(locale);
    forall key | key in r.normalized
      ensures r.normalized[key] == r'.normalized[key]
    {
      var v, v' := r.normalized[key], r'.normalized[key];
      assert CollatorLe(locale)(v, v') && CollatorLe(locale)(v', v);
    }
    assert r.normalized == r'.normalized;
  }

  /** Document order does not matter. */
  lemma DocumentOrderIsIrrelevant(r: Insights, docs: seq<Doc>, r': Insights, docs': seq<Doc>, registry: seq<FieldDef>,
                                  locale: Collator, show: Show)
    requires IsCollator(locale) && multiset(docs) == multiset(docs')
    requires IsInsights(r, docs, registry, locale, show) && IsInsights(r', docs', registry, locale, show)
    ensures r == r'
  {
    hide Values, IsInsights;
    forall key
      ensures Values(docs, key, show) == Values(docs', key, show)
    {
      ValuesIgnoreOrder(docs, docs', key, show);
    }
    InsightsUnique(r, docs, r', docs', registry, locale, show);
  }

  /** One more document: no field becomes missing, no conflict goes away, and normalized values only get lower. */
  lemma MoreDocuments(r: Insights, docs: seq<Doc>, doc: Doc, r': Insights, registry: seq<FieldDef>,
                      locale: Collator, show: Show)
    requires IsInsights(r, docs, registry, locale, show) && IsInsights(r', docs + [doc], registry, locale, show)
    ensures forall key :: key in r'.missing ==> key in r.missing
    ensures forall key :: key in r.conflicting ==> key in r'.conflicting
    ensures forall key :: key in r.normalized ==>
              key in r'.normalized && locale(r'.normalized[key], r.normalized[key]) <= 0
  {
    hide Values, Required, InRegistry, Listed;
    forall key
      ensures Values(docs, key, show) <= Values(docs + [doc], key, show)
      ensures |Values(docs, key, show)| <= |Values(docs + [doc], key, show)|
    {
      ValuesGrow(docs, doc, key, show);
    }
    forall key | key in r.normalized
      ensures key in r'.normalized && locale(r'.normalized[key], r.normalized[key]) <= 0
    {
      assert Values(docs, key, show) <= Values(docs + [doc], key, show);
      assert r.normalized[key] in Values(docs, key, show);
      assert r.normalized[key] in Values(docs + [doc], key, show);
    }
  }

  lemma ValuesGrow(docs: seq<Doc>, doc: Doc, key: string, show: Show)
    ensures Values(docs, key, show) <= Values(docs + [doc], key, show)
    ensures |Values(docs, key, show)| <= |Values(docs + [doc], key, show)|
  {
    hide ValueOf;
    assert (docs + [doc])[..|docs|] == docs;
    SubsetSize(Values(docs, key, show), Values(docs + [doc], key, show));
  }

  lemma SubsetSize(a: set<string>, b: set<string>)
    requires a <= b
    ensures |a| <= |b|
  {
    assert b == a + (b - a);
  }

  /** A missing field neither conflicts nor has a value; a conflicting one has a value, and another that loses. */
  lemma MissingConflictsDisjoint(r: Insights, docs: seq<Doc>, registry: seq<FieldDef>, locale: Collator, show: Show)
    requires IsInsights(r, docs, registry, locale, show)
    ensures forall key :: key in r.missing ==> key !in r.conflicting && key !in r.normalized
    ensures forall key :: key in r.conflicting ==> key in r.normalized
    ensures forall key :: Required(registry, key) ==> (key in r.missing <==> key !in r.normalized)
  {
    hide Values, Listed, LeastOf;
    forall key | Required(registry, key)
      ensures InRegistry(registry, key)
    {
      assert exists i :: 0 <= i < |registry| && registry[i].key == key;
    }
  }

  /** Every normalized value is normal text. */
  lemma NormalizedValuesAreNormal(r: Insights, docs: seq<Doc>, registry: seq<FieldDef>, locale: Collator, show: Show)
    requires PrintsPlain(show) && IsInsights(r, docs, registry, locale, show)
    ensures forall key :: key in r.normalized ==> IsNormal(r.normalized[key])
  {
    hide Values, NormalizeValue, IsNormal, Listed;
    forall key | key in r.normalized
      ensures IsNormal(r.normalized[key])
    {
      var v := r.normalized[key];
      assert LeastOf(v, Values(docs, key, show), locale);
      ValuesAre(docs, key, show, v);
      var k :| 0 <= k < |docs| && v in ValueOf(docs[k], key, show);
      var extracted := docs[k].extracted;
      ValueIsNormal(Get(extracted, key), show);
      ValueIsNormal(Get(Get(extracted, "fields"), key), show);
      ValueIsNormal(Get(Get(extracted, "normalized"), key), show);
    }
  }

  /** The values collected so far hold exactly what the documents give. */
  ghost predicate Collected(valuesByField: map<string, seq<string>>, docs: seq<Doc>, registry: seq<FieldDef>,
                            show: Show) {
    forall key :: InRegistry(registry, key) ==> Elements(At(valuesByField, key)) == Values(docs, key, show)
  }

  /** `valuesByField.get(key) ?? []` */
  function At(valuesByField: map<string, seq<string>>, key: string): seq<string> {
    if key in valuesByField then valuesByField[key] else []
  }

  /** The first loop's body for one document. */
  method CollectDocument(valuesByField: map<string, seq<string>>, doc: Doc, registry: seq<FieldDef>, show: Show)
    returns (r: map<string, seq<string>>)
    ensures forall key :: InRegistry(registry, key) ==>
              Elements(At(r, key)) == Elements(At(valuesByField, key)) + ValueOf(doc, key, show)
  {
    r := valuesByField;
    var i := 0;
    while i < |registry|
      invariant 0 <= i <= |registry|
      invariant forall key :: Elements(At(r, key)) == Elements(At(valuesByField, key)) +
                              if InRegistry(registry[..i], key) then ValueOf(doc, key, show) else {}
    {
      var key := registry[i].key;
      RegistrySnoc(registry, i);
      var extracted := ExtractFieldValue(doc.extracted, key, show);
      if extracted.Some? && extracted.value != "" {
        r := r[key := At(r, key) + [extracted.value]];
      }
      i := i + 1;
    }
    assert registry[..i] == registry;
  }

  lemma RegistrySnoc(registry: seq<FieldDef>, i: nat)
    requires i < |registry|
    ensures forall key :: InRegistry(registry[..i + 1], key) <==>
              InRegistry(registry[..i], key) || registry[i].key == key
    ensures forall key :: Required(registry[..i + 1], key) <==>
              Required(registry[..i], key) || registry[i] == FieldDef(key, true)
  {
    forall key
      ensures InRegistry(registry[..i + 1], key) <==> InRegistry(registry[..i], key) || registry[i].key == key
      ensures Required(registry[..i + 1], key) <==> Required(registry[..i], key) || registry[i] == FieldDef(key, true)
    {
      var more, less := registry[..i + 1], registry[..i];
      assert more == less + [registry[i]] && more[i] == registry[i];
      if k :| 0 <= k < i && less[k].key == key {
        assert more[k].key == key;
      }
      if k :| 0 <= k < i && less[k] == FieldDef(key, true) {
        assert more[k] == FieldDef(key, true);
      }
    }
  }

  lemma {:induction false} ListedSize(s: seq<string>, e: set<string>)
    requires forall x :: x in s <==> x in e
    requires forall i, j :: 0 <= i < j < |s| ==> s[i] != s[j]
    ensures |s| == |e|
  {
    if s == [] {
      assert e == {};
    } else {
      assert s == [s[0]] + s[1..];
      ListedSize(s[1..], e - {s[0]});
    }
  }

  /** Among values listed once each, the most frequent one is the least. */
  lemma LeastOfUnique(unique: seq<string>, e: set<string>, best: string, locale: Collator)
    requires IsCollator(locale) && Lists(unique, e, locale) && best in unique
    requires forall w :: w in unique ==>
               || multiset(unique)[best] > multiset(unique)[w]
               || (multiset(unique)[best] == multiset(unique)[w] && locale(best, w) <= 0)
    ensures LeastOf(best, e, locale)
  {
    hide IsCollator;
    ListedDistinct(unique, e, locale);
    forall w | w in e
      ensures locale(best, w) <= 0
    {
      OnceEach(unique, best);
      OnceEach(unique, w);
      assert best in multiset(unique) && w in multiset(unique);
    }
  }

  /** Judging one more entry of the registry. */
  lemma JudgedSnoc(before: Insights, after: Insights, best: string, docs: seq<Doc>, registry: seq<FieldDef>, i: nat,
                   locale: Collator, show: Show)
    requires i < |registry|
    requires Judged(before, docs, registry[..i], locale, show)
    requires var field, values := registry[i], Values(docs, registry[i].key, show);
             && after.missing == before.missing + (if field.required && values == {} then [field.key] else [])
             && after.conflicting == before.conflicting + (if |values| > 1 then [field.key] else [])
             && (values == {} ==> after.normalized == before.normalized)
             && (values != {} ==>
                   LeastOf(best, values, locale) && after.normalized == before.normalized[field.key := best])
    ensures Judged(after, docs, registry[..i + 1], locale, show)
  {
    hide Values, InRegistry, Required, LeastOf;
    RegistrySnoc(registry, i);
  }

  lemma UniqueSize(unique: seq<string>, e: set<string>, locale: Collator)
    requires IsCollator(locale) && Lists(unique, e, locale)
    ensures |unique| == |e|
  {
    hide IsCollator;
    ListedDistinct(unique, e, locale);
    ListedSize(unique, e);
  }

  /** Empty text is never collected. */
  lemma {:induction false} LeastIsNonempty(v: string, docs: seq<Doc>, key: string, locale: Collator, show: Show)
    requires LeastOf(v, Values(docs, key, show), locale)
    ensures v != ""
  {
    ValuesAre(docs, key, show, v);
  }

  lemma NothingCollected(registry: seq<FieldDef>, show: Show)
    ensures Collected(map[], [], registry, show)
  {
  }

  lemma NothingJudged(docs: seq<Doc>, locale: Collator, show: Show)
    ensures Judged(Insights([], [], map[]), docs, [], locale, show)
  {
  }

  lemma ValuesSnoc(docs: seq<Doc>, i: nat, show: Show)
    requires i < |docs|
    ensures forall key :: Values(docs[..i + 1], key, show) == Values(docs[..i], key, show) + ValueOf(docs[i], key, show)
  {
    assert docs[..i + 1][..i] == docs[..i];
  }

  lemma InItsRegistry(registry: seq<FieldDef>, i: nat)
    requires i < |registry|
    ensures InRegistry(registry, registry[i].key)
  {
  }

  lemma SortingKeepsJudgement(r: Insights, r': Insights, docs: seq<Doc>, registry: seq<FieldDef>, locale: Collator,
                              show: Show)
    requires Judged(r, docs, registry, locale, show)
    requires Lists(r'.missing, Elements(r.missing), locale) && Lists(r'.conflicting, Elements(r.conflicting), locale)
    requires r'.normalized == r.normalized
    ensures IsInsights(r', docs, registry, locale, show)
  {
    assert Elements(r'.missing) == Elements(r.missing) && Elements(r'.conflicting) == Elements(r.conflicting);
  }

  method BuildOcrInsights(docs: seq<Doc>, registry: seq<FieldDef>, locale: Collator, show: Show) returns (r: Insights)
    requires IsCollator(locale)
    ensures IsInsights(r, docs, registry, locale, show)
  {
    hide IsCollator, Values, ToSortedUnique, Lists, Judged, InRegistry, Ranked, LeastOf;
    var valuesByField: map<string, seq<string>> := map[];
    var i := 0;
    NothingCollected(registry, show);
    while i < |docs|
      invariant 0 <= i <= |docs|
      invariant Collected(valuesByField, docs[..i], registry, show)
    {
      valuesByField := CollectDocument(valuesByField, docs[i], registry, show);
      ValuesSnoc(docs, i, show);
      i := i + 1;
    }
    assert docs[..i] == docs;
    var missing: seq<string>, conflicting: seq<string>, normalized: map<string, string> := [], [], map[];
    i := 0;
    NothingJudged(docs, locale, show);
    while i < |registry|
      invariant 0 <= i <= |registry|
      invariant Judged(Insights(missing, conflicting, normalized), docs, registry[..i], locale, show)
    {
      var key := registry[i].key;
      ghost var before, values := Insights(missing, conflicting, normalized), Values(docs, key, show);
      var unique := ToSortedUnique(At(valuesByField, key), locale);
      InItsRegistry(registry, i);
      SortedUniqueLists(At(valuesByField, key), locale);
      UniqueSize(unique, values, locale);
      if registry[i].required && |unique| == 0 {
        missing := missing + [key];
      }
      if |unique| > 1 {
        conflicting := conflicting + [key];
      }
      var best := ResolveNormalizedValue(unique, locale);
      if best.Some? {
        LeastOfUnique(unique, values, best.value, locale);
        LeastIsNonempty(best.value, docs, key, locale, show);
      }
      if best.Some? && best.value != "" {
        normalized := normalized[key := best.value];
      }
      JudgedSnoc(before, Insights(missing, conflicting, normalized), if best.Some? then best.value else "", docs,
                 registry, i, locale, show);
      i := i + 1;
    }
    assert registry[..i] == registry;
    SortedUniqueLists(missing, locale);
    SortedUniqueLists(conflicting, locale);
    r := Insights(ToSortedUnique(missing, locale), ToSortedUnique(conflicting, locale), normalized);
    SortingKeepsJudgement(Insights(missing, conflicting, normalized), r, docs, registry, locale, show);
  }

  // ---- What is read as what ----

  /** Booleans and numbers read as their text does. */
  lemma ScalarsReadAsText(n: real, show: Show)
    requires PrintsPlain(show)
    ensures NormalizeValue(Bool(true), show) == NormalizeValue(Text("true"), show) == Some("true")
    ensures NormalizeValue(Bool(false), show) == NormalizeValue(Text("false"), show) == Some("false")
    ensures NormalizeValue(Number(n), show) == NormalizeValue(Text(show(n)), show) == Some(show(n))
  {
    hide Trim, NormalText, IsNormal;
    BoolsAreNormal();
    NormalTextIsNormal("true");
    NormalTextIsNormal("false");
    NormalTextIsNormal(show(n));
    NormalIsNonempty(show(n));
  }

  /** A list reads as its first element, a wrapper as its `normalized` part and else as its `value`. */
  lemma WrappersReadAsContent(v: Value, w: Value, more: seq<Value>, show: Show)
    ensures NormalizeValue(Array([v] + more), show) == NormalizeValue(v, show)
    ensures v != Undefined ==> NormalizeValue(Object([Field("value", v)]), show) == NormalizeValue(v, show)
    ensures v != Undefined ==>
              NormalizeValue(Object([Field("value", w), Field("normalized", v)]), show) == NormalizeValue(v, show)
    ensures NormalizeValue(Null, show) == NormalizeValue(Array([]), show) == NormalizeValue(Object([]), show) == None
  {
    hide Lookup;
    assert "value"[0] != "normalized"[0];
    TwoFields(Field("value", v), Field("value", v), "normalized");
    TwoFields(Field("value", v), Field("value", v), "value");
    TwoFields(Field("value", w), Field("normalized", v), "normalized");
  }

  function Nested(part: string, name: string, v: Value): Field {
    Field(part, Object([Field(name, v)]))
  }

  lemma PartNames()
    ensures "fields" != "normalized"
  {
    assert "fields"[0] != "normalized"[0];
  }

  /** A field is looked for in the document, then under `fields`, then under `normalized`. */
  lemma WhereFieldsAreFound(name: string, direct: Value, field: Value, normal: Value, show: Show)
    requires name != "fields" && name != "normalized"
    requires direct != Undefined && field != Undefined && normal != Undefined
    ensures var nested, last := Nested("fields", name, field), Nested("normalized", name, normal);
            && ExtractFieldValue(Object([Field(name, direct), nested]), name, show) == NormalizeValue(direct, show)
            && ExtractFieldValue(Object([last, nested]), name, show) == NormalizeValue(field, show)
            && ExtractFieldValue(Object([last]), name, show) == NormalizeValue(normal, show)
  {
    hide Lookup, NormalizeValue;
    var nested, last := Nested("fields", name, field), Nested("normalized", name, normal);
    PartNames();
    TwoFields(Field(name, direct), nested, name);
    FoundUnderFields(name, field, last, show);
    FoundUnderNormalized(name, normal, show);
  }

  lemma FoundUnderFields(name: string, field: Value, last: Field, show: Show)
    requires name != "fields" && name != last.name && last.name == "normalized" && field != Undefined
    ensures ExtractFieldValue(Object([last, Nested("fields", name, field)]), name, show) == NormalizeValue(field, show)
  {
    hide Lookup, NormalizeValue;
    PartNames();
    var nested := Nested("fields", name, field);
    TwoFields(last, nested, name);
    TwoFields(last, nested, "fields");
    TwoFields(Field(name, field), last, name);
  }

  lemma FoundUnderNormalized(name: string, normal: Value, show: Show)
    requires name != "fields" && name != "normalized" && normal != Undefined
    ensures ExtractFieldValue(Object([Nested("normalized", name, normal)]), name, show) == NormalizeValue(normal, show)
  {
    hide Lookup, NormalizeValue;
    PartNames();
    var last := Nested("normalized", name, normal);
    TwoFields(last, last, name);
    TwoFields(last, last, "fields");
    TwoFields(last, last, "normalized");
    TwoFields(Field(name, normal), last, name);
  }
}
