/**
 The staff preview's computation of the same union, leg by leg and then over all legs
 (src/routes/lenderProductsRequiredDocsPreview.ts), and that it agrees with the wizard's.
 */
module RequiredDocsLegs {
  import opened JsStrings
  import opened JsValues
  import opened Sorting
  import opened RequiredDocsUnion

  // ---- extractDocsFromProduct ----

  /** The preview keeps an amount only when it is a number. */
  function Numeric(entries: seq<Entry>): (r: seq<Entry>)
    ensures |r| == |entries|
    ensures forall i :: 0 <= i < |r| ==>
              r[i] == Entry(entries[i].mention,
                            Window(NumberOrNull(entries[i].window.min), NumberOrNull(entries[i].window.max)))
  {
    seq(|entries|, i requires 0 <= i < |entries| =>
      Entry(entries[i].mention, Window(NumberOrNull(entries[i].window.min), NumberOrNull(entries[i].window.max))))
  }

  lemma NumericConcat(a: seq<Entry>, b: seq<Entry>)
    ensures Numeric(a + b) == Numeric(a) + Numeric(b)
  {
  }

  method ExtractDocsFromProduct(row: Product) returns (out: seq<Entry>)
    ensures out == Numeric(Entries(row.requiredDocuments))
    ensures MentionsOf(out) == MentionsOf(Entries(row.requiredDocuments))
  {
    hide Trim, Get, ItemsEntries, FieldsEntries;
    NothingMentioned();
    out := [];
    match row.requiredDocuments
    case Array(items) =>
      for i := 0 to |items|
        invariant out == Numeric(ItemsEntries(items[..i]))
      {
        var item := items[i];
        ItemsSnoc(items, i);
        NumericConcat(ItemsEntries(items[..i]), ItemEntries(item));
        if IsLabel(item) {
          out := out + [Entry(Mention(Trim(item.s), true), NO_WINDOW)];
        } else if item.Object? || item.Array? {
          var docType := if IsLabel(Get(item, "document_type")) then Get(item, "document_type")
                         else if IsLabel(Get(item, "category")) then Get(item, "category")
                         else Null;
          if docType.Text? {
            out := out + [Entry(Mention(Trim(docType.s), Get(item, "required") != Bool(false)),
                                Window(NumberOrNull(Get(item, "min_amount")), NumberOrNull(Get(item, "max_amount"))))];
          }
        }
      }
      assert items[..|items|] == items;
    case Object(fields) =>
      for i := 0 to |fields|
        invariant out == Numeric(FieldsEntries(fields[..i]))
      {
        var f := fields[i];
        FieldsSnoc(fields, i);
        NumericConcat(FieldsEntries(fields[..i]), FieldEntries(f));
        if f.name != "" && Truthy(f.value) {
          out := out + [Entry(Mention(f.name, Truthy(f.value)), NO_WINDOW)];
        }
      }
      assert fields[..|fields|] == fields;
    case _ =>
  }

  // ---- Who asks for what ----

  /** A product with its mentions, or a leg with those of its report. */
  datatype Tagged = Tagged(tag: string, mentions: seq<Mention>)

  datatype Ask = Ask(tag: string, doc: string)

  function TagAsks(tag: string, ms: seq<Mention>): (r: seq<Ask>)
    ensures |r| == |ms| && forall i :: 0 <= i < |r| ==> r[i] == Ask(tag, ms[i].doc)
  {
    seq(|ms|, i requires 0 <= i < |ms| => Ask(tag, ms[i].doc))
  }

  function AllTagged(ts: seq<Tagged>): seq<Mention> {
    if ts == [] then [] else AllTagged(ts[..|ts| - 1]) + ts[|ts| - 1].mentions
  }

  function AllAsks(ts: seq<Tagged>): seq<Ask> {
    if ts == [] then [] else AllAsks(ts[..|ts| - 1]) + TagAsks(ts[|ts| - 1].tag, ts[|ts| - 1].mentions)
  }

  lemma TaggedSnoc(ts: seq<Tagged>, i: nat)
    requires i < |ts|
    ensures AllTagged(ts[..i + 1]) == AllTagged(ts[..i]) + ts[i].mentions
    ensures AllAsks(ts[..i + 1]) == AllAsks(ts[..i]) + TagAsks(ts[i].tag, ts[i].mentions)
  {
    assert ts[..i + 1][..i] == ts[..i];
  }

  function TaggedRows(rows: seq<Product>): (r: seq<Tagged>)
    ensures |r| == |rows|
    ensures forall i :: 0 <= i < |r| ==> r[i] == Tagged(rows[i].name, MentionsOf(Entries(rows[i].requiredDocuments)))
  {
    seq(|rows|, i requires 0 <= i < |rows| => Tagged(rows[i].name, MentionsOf(Entries(rows[i].requiredDocuments))))
  }

  /** What the tagged rows mention is what the rows mention. */
  lemma {:induction false} TaggedRowsMention(rows: seq<Product>)
    ensures AllTagged(TaggedRows(rows)) == AllMentions(rows)
  {
    hide Entries, AllMentions, MentionsOf;
    var ts := TaggedRows(rows);
    if rows == [] {
      NoRows();
    } else {
      var k := |rows| - 1;
      TaggedRowsMention(rows[..k]);
      assert TaggedRows(rows[..k]) == ts[..k];
      RowsSnoc(rows, k);
      assert rows[..k + 1] == rows;
    }
  }

  // ---- The map that both loops build ----

  datatype LegDoc = LegDoc(required: bool, sources: seq<string>)

  predicate Distinct(names: seq<string>) {
    forall i, j :: 0 <= i < j < |names| ==> names[i] != names[j]
  }

  /** Each document lists, once each, the tags that ask for it. */
  ghost predicate ListsSources(docs: map<string, LegDoc>, asks: seq<Ask>) {
    forall doc :: doc in docs ==>
      && Distinct(docs[doc].sources)
      && forall tag :: tag in docs[doc].sources <==> Ask(tag, doc) in asks
  }

  ghost predicate AsksAreKeys(docs: map<string, LegDoc>, asks: seq<Ask>) {
    forall i :: 0 <= i < |asks| ==> asks[i].doc in docs
  }

  function Flags(docs: map<string, LegDoc>): map<string, bool> {
    map doc | doc in docs :: docs[doc].required
  }

  ghost predicate LegState(docs: map<string, LegDoc>, order: seq<string>, ms: seq<Mention>, asks: seq<Ask>) {
    IsUnion(Flags(docs), ms) && ListsSources(docs, asks) && AsksAreKeys(docs, asks) && IsOrder(order, docs)
  }

  /** What the loop body does to the map. */
  function AddDoc(docs: map<string, LegDoc>, tag: string, d: Mention): map<string, LegDoc> {
    if d.doc in docs then
      var e := docs[d.doc];
      docs[d.doc := LegDoc(e.required || d.required, if tag in e.sources then e.sources else e.sources + [tag])]
    else docs[d.doc := LegDoc(d.required, [tag])]
  }

  lemma AddDocFlags(docs: map<string, LegDoc>, ms: seq<Mention>, tag: string, d: Mention)
    requires IsUnion(Flags(docs), ms)
    ensures IsUnion(Flags(AddDoc(docs, tag, d)), ms + [d])
  {
    hide IsUnion;
    UnionSnoc(Flags(docs), ms, d);
    var f := Flags(docs);
    assert Flags(AddDoc(docs, tag, d)) == f[d.doc := (d.doc in f && f[d.doc]) || d.required];
  }

  lemma AddDocSources(docs: map<string, LegDoc>, asks: seq<Ask>, tag: string, d: Mention)
    requires ListsSources(docs, asks) && AsksAreKeys(docs, asks)
    ensures ListsSources(AddDoc(docs, tag, d), asks + [Ask(tag, d.doc)])
    ensures AsksAreKeys(AddDoc(docs, tag, d), asks + [Ask(tag, d.doc)])
  {
  }

  lemma AddDocKeeps(docs: map<string, LegDoc>, order: seq<string>, ms: seq<Mention>, asks: seq<Ask>, tag: string,
                    d: Mention)
    requires LegState(docs, order, ms, asks)
    ensures LegState(AddDoc(docs, tag, d), if d.doc in docs then order else order + [d.doc], ms + [d],
                     asks + [Ask(tag, d.doc)])
  {
    hide IsUnion, ListsSources, AsksAreKeys;
    AddDocFlags(docs, ms, tag, d);
    AddDocSources(docs, asks, tag, d);
  }

  lemma EmptyLeg()
    ensures LegState(map[], [], [], []) && AllTagged([]) == [] && AllAsks([]) == []
  {
  }

  /** The inner loop of `runOneLeg` and of `buildUnion`. */
  method AddDocs(docs: map<string, LegDoc>, order: seq<string>, tag: string, found: seq<Mention>,
                 ghost ms: seq<Mention>, ghost asks: seq<Ask>)
    returns (docs': map<string, LegDoc>, order': seq<string>)
    requires LegState(docs, order, ms, asks)
    ensures LegState(docs', order', ms + found, asks + TagAsks(tag, found))
  {
    hide LegState;
    docs', order' := docs, order;
    var j := 0;
    ghost var mine := TagAsks(tag, found);
    assert ms + found[..0] == ms && asks + mine[..0] == asks;
    while j < |found|
      invariant 0 <= j <= |found| && LegState(docs', order', ms + found[..j], asks + mine[..j])
    {
      var d := found[j];
      AddDocKeeps(docs', order', ms + found[..j], asks + mine[..j], tag, d);
      assert ms + found[..j] + [d] == ms + found[..j + 1];
      assert asks + mine[..j] + [Ask(tag, d.doc)] == asks + mine[..j + 1];
      if d.doc in docs' {
        var existing := docs'[d.doc];
        existing := existing.(required := existing.required || d.required);
        if tag !in existing.sources {
          existing := existing.(sources := existing.sources + [tag]);
        }
        docs' := docs'[d.doc := existing];
      } else {
        docs' := docs'[d.doc := LegDoc(d.required, [tag])];
        order' := order' + [d.doc];
      }
      j := j + 1;
    }
    assert found[..j] == found && mine[..j] == mine;
  }

  // ---- The report ----

  datatype DocReport = DocReport(doc: string, required: bool, sources: seq<string>)

  function ReportName(d: DocReport): string {
    d.doc
  }

  /** The documents and flags of a report. */
  function Reported(report: seq<DocReport>): (r: seq<Mention>)
    ensures |r| == |report| && forall i :: 0 <= i < |r| ==> r[i] == Mention(report[i].doc, report[i].required)
  {
    seq(|report|, i requires 0 <= i < |report| => Mention(report[i].doc, report[i].required))
  }

  /** The union in ascending order, each document with exactly the tags that ask for it, each once. */
  ghost predicate IsReport(report: seq<DocReport>, ms: seq<Mention>, asks: seq<Ask>, locale: Collator) {
    && ListsUnion(Reported(report), ms, locale)
    && forall d :: d in report ==> HasSources(d, asks)
  }

  ghost predicate HasSources(d: DocReport, asks: seq<Ask>) {
    Distinct(d.sources) && forall tag :: tag in d.sources <==> Ask(tag, d.doc) in asks
  }

  /** `Array.from(docMap.entries()).map(…)`, with each document's tags rearranged. */
  function Rows(docs: map<string, LegDoc>, order: seq<string>, arrange: seq<string> -> seq<string>): (r: seq<DocReport>)
    requires IsOrder(order, docs)
    ensures |r| == |order|
    ensures forall i :: 0 <= i < |r| ==>
              r[i] == DocReport(order[i], docs[order[i]].required, arrange(docs[order[i]].sources))
  {
    seq(|order|, i requires 0 <= i < |order| =>
      DocReport(order[i], docs[order[i]].required, arrange(docs[order[i]].sources)))
  }

  /** Puts names in some order. */
  ghost predicate Arranges(arrange: seq<string> -> seq<string>) {
    forall names :: multiset(arrange(names)) == multiset(names)
  }

  lemma ArrangedSources(arrange: seq<string> -> seq<string>, names: seq<string>)
    requires Arranges(arrange) && Distinct(names)
    ensures Distinct(arrange(names)) && forall tag :: tag in arrange(names) <==> tag in names
  {
    var r := arrange(names);
    assert multiset(r) == multiset(names);
    assert forall x :: x in r <==> x in multiset(r);
    assert forall x :: x in names <==> x in multiset(names);
    forall i, j | 0 <= i < j < |r|
      ensures r[i] != r[j]
    {
      if r[i] == r[j] {
        CountedTwice(r, i, j);
        OnceEach(names, r[i]);
      }
    }
  }

  lemma SortedRowsReport(docs: map<string, LegDoc>, order: seq<string>, ms: seq<Mention>, asks: seq<Ask>,
                         arrange: seq<string> -> seq<string>, locale: Collator)
    requires IsCollator(locale) && Arranges(arrange) && LegState(docs, order, ms, asks) && IsOrder(order, docs)
    ensures IsReport(Sort(Rows(docs, order, arrange), NameLe(ReportName, locale)), ms, asks, locale)
  {
    hide IsCollator, Arranges, Distinct, Sort, IsUnion, RequiredBy, Mentioned;
    var rows := Rows(docs, order, arrange);
    var report := Sort(rows, NameLe(ReportName, locale));
    assert DistinctNames(rows, ReportName);
    SortAscends(rows, ReportName, locale);
    forall d | d in report
      ensures HasSources(d, asks)
    {
      var i :| 0 <= i < |rows| && rows[i] == d;
      assert order[i] in docs;
      ArrangedSources(arrange, docs[order[i]].sources);
    }
    ReportedLists(docs, order, rows, report, ms, locale);
  }

  lemma ReportedLists(docs: map<string, LegDoc>, order: seq<string>, rows: seq<DocReport>, report: seq<DocReport>,
                      ms: seq<Mention>, locale: Collator)
    requires IsOrder(order, docs) && IsUnion(Flags(docs), ms) && |rows| == |order|
    requires forall i :: 0 <= i < |rows| ==> rows[i].doc == order[i] && rows[i].required == docs[order[i]].required
    requires Ascending(report, ReportName, locale) && forall d :: d in report <==> d in rows
    ensures ListsUnion(Reported(report), ms, locale)
  {
    hide IsUnion, RequiredBy, Mentioned;
    var list := Reported(report);
    assert Ascending(list, MentionName, locale) by { ReportNamesKept(report, list, locale); }
    forall x
      ensures x in list <==> Mentioned(ms, x.doc) && x.required == RequiredBy(ms, x.doc)
    {
      InUnion(Flags(docs), ms, x.doc);
      if x in list {
        var i :| 0 <= i < |list| && list[i] == x;
        assert report[i] in rows;
        var k :| 0 <= k < |rows| && rows[k] == report[i];
        assert order[k] in docs;
      }
      if x.doc in docs && x.required == docs[x.doc].required {
        assert x.doc in order;
        var k :| 0 <= k < |order| && order[k] == x.doc;
        assert rows[k] in report;
        var i :| 0 <= i < |report| && report[i] == rows[k];
        assert list[i] == x;
      }
    }
  }

  lemma ReportNamesKept(report: seq<DocReport>, list: seq<Mention>, locale: Collator)
    requires Ascending(report, ReportName, locale) && |list| == |report|
    requires forall i :: 0 <= i < |list| ==> list[i].doc == report[i].doc
    ensures Ascending(list, MentionName, locale)
  {
    forall i, j | 0 <= i < j < |list|
      ensures locale(MentionName(list[i]), MentionName(list[j])) < 0
    {
      assert locale(ReportName(report[i]), ReportName(report[j])) < 0;
    }
  }

  // ---- runOneLeg and buildUnion ----

  /** `runOneLeg`, from the matching rows on; `units` is the default order of `sort()`. */
  method RunOneLeg(rows: seq<Product>, locale: Collator, units: Collator) returns (report: seq<DocReport>)
    requires IsCollator(locale) && IsCollator(units)
    ensures IsReport(report, AllMentions(rows), AllAsks(TaggedRows(rows)), locale)
    ensures forall d :: d in report ==> Ascending(d.sources, Itself, units)
  {
    hide IsCollator, LegState, AllTagged, AllAsks, IsReport, Entries, AllMentions, MentionsOf;
    var docs: map<string, LegDoc>, order: seq<string> := map[], [];
    ghost var ts := TaggedRows(rows);
    EmptyLeg();
    var i := 0;
    while i < |rows|
      invariant 0 <= i <= |rows| && LegState(docs, order, AllTagged(ts[..i]), AllAsks(ts[..i]))
    {
      var found := ExtractDocsFromProduct(rows[i]);
      docs, order := AddDocs(docs, order, rows[i].name, MentionsOf(found), AllTagged(ts[..i]), AllAsks(ts[..i]));
      TaggedSnoc(ts, i);
      i := i + 1;
    }
    assert ts[..i] == ts;
    TaggedRowsMention(rows);
    var sorted := names => Sort(names, NameLe(Itself, units));
    assert IsOrder(order, docs) by { LegOrder(docs, order, AllTagged(ts), AllAsks(ts)); }
    SortedRowsReport(docs, order, AllTagged(ts), AllAsks(ts), sorted, locale);
    report := Sort(Rows(docs, order, sorted), NameLe(ReportName, locale));
    SourcesAscend(docs, order, AllTagged(ts), AllAsks(ts), sorted, units, report);
  }

  lemma SourcesAscend(docs: map<string, LegDoc>, order: seq<string>, ms: seq<Mention>, asks: seq<Ask>,
                      sorted: seq<string> -> seq<string>, units: Collator, report: seq<DocReport>)
    requires IsCollator(units) && LegState(docs, order, ms, asks) && IsOrder(order, docs)
    requires forall names :: sorted(names) == Sort(names, NameLe(Itself, units))
    requires multiset(report) == multiset(Rows(docs, order, sorted))
    ensures forall d :: d in report ==> Ascending(d.sources, Itself, units)
  {
    hide IsCollator, Sort, Ascending, IsUnion;
    var rows := Rows(docs, order, sorted);
    forall d | d in report
      ensures Ascending(d.sources, Itself, units)
    {
      assert d in multiset(rows);
      var i :| 0 <= i < |rows| && rows[i] == d;
      assert order[i] in docs;
      SortAscends(docs[order[i]].sources, Itself, units);
    }
  }

  lemma LegOrder(docs: map<string, LegDoc>, order: seq<string>, ms: seq<Mention>, asks: seq<Ask>)
    requires LegState(docs, order, ms, asks)
    ensures IsOrder(order, docs)
  {
  }

  /** A leg's report under its tag, `category:amount`. */
  datatype Leg = Leg(tag: string, report: seq<DocReport>)

  function TaggedLegs(legs: seq<Leg>): (r: seq<Tagged>)
    ensures |r| == |legs| && forall i :: 0 <= i < |r| ==> r[i] == Tagged(legs[i].tag, Reported(legs[i].report))
  {
    seq(|legs|, i requires 0 <= i < |legs| => Tagged(legs[i].tag, Reported(legs[i].report)))
  }

  /** `buildUnion` */
  method BuildUnion(legs: seq<Leg>, locale: Collator) returns (report: seq<DocReport>)
    requires IsCollator(locale)
    ensures IsReport(report, AllTagged(TaggedLegs(legs)), AllAsks(TaggedLegs(legs)), locale)
  {
    hide IsCollator, LegState, AllTagged, AllAsks, IsReport;
    var docs: map<string, LegDoc>, order: seq<string> := map[], [];
    ghost var ts := TaggedLegs(legs);
    EmptyLeg();
    var i := 0;
    while i < |legs|
      invariant 0 <= i <= |legs| && LegState(docs, order, AllTagged(ts[..i]), AllAsks(ts[..i]))
    {
      docs, order := AddDocs(docs, order, legs[i].tag, Reported(legs[i].report), AllTagged(ts[..i]), AllAsks(ts[..i]));
      TaggedSnoc(ts, i);
      i := i + 1;
    }
    assert ts[..i] == ts;
    var asTheyCame: seq<string> -> seq<string> := names => names;
    assert IsOrder(order, docs) by { LegOrder(docs, order, AllTagged(ts), AllAsks(ts)); }
    SortedRowsReport(docs, order, AllTagged(ts), AllAsks(ts), asTheyCame, locale);
    report := Sort(Rows(docs, order, asTheyCame), NameLe(ReportName, locale));
  }

  // ---- Agreement ----

  /** On the same rows, in whatever order, the two routes answer with the same list of documents and flags. */
  lemma RoutesAgree(items: seq<Item>, rows: seq<Product>, report: seq<DocReport>, rows': seq<Product>, asks: seq<Ask>,
                    locale: Collator)
    requires IsCollator(locale) && multiset(rows) == multiset(rows')
    requires IsWizardList(items, AllEntries(rows), locale) && IsReport(report, AllMentions(rows'), asks, locale)
    ensures Listed(items) == Reported(report)
  {
    hide IsCollator, AllEntries, IsWizardList, ListsUnion;
    WizardLists(items, AllEntries(rows), locale);
    forall doc
      ensures Mentioned(AllMentions(rows), doc) == Mentioned(AllMentions(rows'), doc)
      ensures RequiredBy(AllMentions(rows), doc) == RequiredBy(AllMentions(rows'), doc)
    {
      RowOrderIsIrrelevant(rows, rows', doc);
    }
    ListingUnique(Listed(items), AllMentions(rows), Reported(report), AllMentions(rows'), locale);
  }

  function Concat<T>(legs: seq<seq<T>>): seq<T> {
    if legs == [] then [] else Concat(legs[..|legs| - 1]) + legs[|legs| - 1]
  }

  /** A report mentions and requires what the rows behind it do. */
  lemma ReportMeans(report: seq<DocReport>, ms: seq<Mention>, asks: seq<Ask>, locale: Collator, doc: string)
    requires IsReport(report, ms, asks, locale)
    ensures Mentioned(Reported(report), doc) == Mentioned(ms, doc)
    ensures RequiredBy(Reported(report), doc) == RequiredBy(ms, doc)
  {
    hide Reported;
    var list := Reported(report);
    if Mentioned(ms, doc) {
      assert Mention(doc, RequiredBy(ms, doc)) in list;
    }
    if i :| 0 <= i < |list| && list[i].doc == doc {
      assert list[i] in list;
    }
    assert RequiredBy(ms, doc) ==> Mentioned(ms, doc);
  }

  /** The union over legs is the report of one leg over all their rows. */
  lemma LegsAreOneLeg(legs: seq<Leg>, rows: seq<seq<Product>>, legAsks: seq<seq<Ask>>, union: seq<DocReport>,
                      one: seq<DocReport>, oneAsks: seq<Ask>, locale: Collator)
    requires IsCollator(locale) && |legs| == |rows| == |legAsks|
    requires forall i :: 0 <= i < |legs| ==> IsReport(legs[i].report, AllMentions(rows[i]), legAsks[i], locale)
    requires IsReport(union, AllTagged(TaggedLegs(legs)), AllAsks(TaggedLegs(legs)), locale)
    requires IsReport(one, AllMentions(Concat(rows)), oneAsks, locale)
    ensures Reported(union) == Reported(one)
  {
    hide IsCollator, AllTagged, AllAsks, AllMentions, ListsUnion;
    var ms := AllTagged(TaggedLegs(legs));
    forall doc
      ensures Mentioned(ms, doc) == Mentioned(AllMentions(Concat(rows)), doc)
      ensures RequiredBy(ms, doc) == RequiredBy(AllMentions(Concat(rows)), doc)
    {
      LegsMean(legs, rows, legAsks, locale, doc);
    }
    ListingUnique(Reported(union), ms, Reported(one), AllMentions(Concat(rows)), locale);
  }

  lemma {:induction false} LegsMean(legs: seq<Leg>, rows: seq<seq<Product>>, legAsks: seq<seq<Ask>>, locale: Collator,
                                    doc: string)
    requires |legs| == |rows| == |legAsks|
    requires forall i :: 0 <= i < |legs| ==> IsReport(legs[i].report, AllMentions(rows[i]), legAsks[i], locale)
    ensures Mentioned(AllTagged(TaggedLegs(legs)), doc) == Mentioned(AllMentions(Concat(rows)), doc)
    ensures RequiredBy(AllTagged(TaggedLegs(legs)), doc) == RequiredBy(AllMentions(Concat(rows)), doc)
  {
    hide IsReport, AllMentions, Mentioned, RequiredBy, AllTagged;
    EmptyLeg();
    if legs == [] {
      NoRows();
    } else {
      var k := |legs| - 1;
      var ts := TaggedLegs(legs);
      LegsMean(legs[..k], rows[..k], legAsks[..k], locale, doc);
      assert TaggedLegs(legs[..k]) == ts[..k];
      TaggedSnoc(ts, k);
      assert ts[..k + 1] == ts;
      MentionedConcat(AllTagged(ts[..k]), ts[k].mentions, doc);
      ReportMeans(legs[k].report, AllMentions(rows[k]), legAsks[k], locale, doc);
      RowsConcat(Concat(rows[..k]), rows[k]);
      MentionedConcat(AllMentions(Concat(rows[..k])), AllMentions(rows[k]), doc);
    }
  }

  lemma RowsConcat(a: seq<Product>, b: seq<Product>)
    ensures AllMentions(a + b) == AllMentions(a) + AllMentions(b)
  {
    hide AllEntries;
    EntriesConcat(a, b);
    MentionsOfConcat(AllEntries(a), AllEntries(b));
  }

  lemma {:induction false} EntriesConcat(a: seq<Product>, b: seq<Product>)
    ensures AllEntries(a + b) == AllEntries(a) + AllEntries(b)
  {
    hide Entries;
    if b == [] {
      assert a + b == a;
    } else {
      var k := |b| - 1;
      assert (a + b)[..|a + b| - 1] == a + b[..k];
      EntriesConcat(a, b[..k]);
    }
  }
}
