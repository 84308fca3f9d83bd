/**
 The amount window that the wizard keeps for a document (src/routes/lenderProductsRequiredDocs.ts): that of its first
 mention, and exactly when this is the tightest one.
 */
module RequiredDocsWindow {
  import opened Options
  import opened JsStrings
  import opened JsValues
  import opened Sorting
  import opened RequiredDocsUnion
  import opened RequiredDocsLegs

  /** A window's numbers; anything else is no bound. */
  datatype Bounds = Bounds(low: Option<real>, high: Option<real>)

  function AsNumber(v: Value): Option<real> {
    if v.Number? then Some(v.n) else None
  }

  function BoundsOf(w: Window): Bounds {
    Bounds(AsNumber(w.min), AsNumber(w.max))
  }

  predicate Allows(b: Bounds, amount: real) {
    (b.low.Some? ==> b.low.value <= amount) && (b.high.Some? ==> amount <= b.high.value)
  }

  /** Each bound of `b` is a bound of `a` too, or a weaker one. */
  predicate Within(a: Bounds, b: Bounds) {
    && (b.low.Some? ==> a.low.Some? && b.low.value <= a.low.value)
    && (b.high.Some? ==> a.high.Some? && a.high.value <= b.high.value)
  }

  /** The tighter of two bounds on each side. */
  function Tighter(a: Bounds, b: Bounds): Bounds {
    Bounds(if a.low.None? || (b.low.Some? && a.low.value < b.low.value) then b.low else a.low,
           if a.high.None? || (b.high.Some? && b.high.value < a.high.value) then b.high else a.high)
  }

  /** The tightest window over all mentions of `doc`. */
  function Tightest(entries: seq<Entry>, doc: string): Bounds {
    if entries == [] then Bounds(None, None)
    else if entries[0].mention.doc == doc then Tighter(BoundsOf(entries[0].window), Tightest(entries[1..], doc))
    else Tightest(entries[1..], doc)
  }

  predicate WithinAll(b: Bounds, entries: seq<Entry>, doc: string) {
    forall i :: 0 <= i < |entries| && entries[i].mention.doc == doc ==> Within(b, BoundsOf(entries[i].window))
  }

  lemma WithinRest(b: Bounds, entries: seq<Entry>, doc: string)
    requires entries != []
    ensures WithinAll(b, entries, doc) <==>
            && (entries[0].mention.doc == doc ==> Within(b, BoundsOf(entries[0].window)))
            && WithinAll(b, entries[1..], doc)
  {
    hide Within;
    assert forall i :: 0 < i < |entries| ==> entries[i] == entries[1..][i - 1];
  }

  /** A window lies within every mention's exactly when it lies within the tightest. */
  lemma {:induction false} WithinTightest(b: Bounds, entries: seq<Entry>, doc: string)
    ensures WithinAll(b, entries, doc) <==> Within(b, Tightest(entries, doc))
  {
    hide WithinAll;
    if entries == [] {
      NothingToMeet(b, doc);
    } else {
      WithinRest(b, entries, doc);
      WithinTightest(b, entries[1..], doc);
    }
  }

  lemma NothingToMeet(b: Bounds, doc: string)
    ensures WithinAll(b, [], doc)
  {
  }

  /** An amount is in the tightest window exactly when every mention's window allows it. */
  lemma {:induction false} TightestAllows(entries: seq<Entry>, doc: string, amount: real)
    ensures Allows(Tightest(entries, doc), amount) <==>
            forall i :: 0 <= i < |entries| && entries[i].mention.doc == doc ==>
              Allows(BoundsOf(entries[i].window), amount)
  {
    hide BoundsOf;
    if entries != [] {
      TightestAllows(entries[1..], doc, amount);
      assert forall i :: 0 < i < |entries| ==> entries[i] == entries[1..][i - 1];
    }
  }

  /** The first mention's window is the tightest exactly when it lies within that of every mention. */
  lemma FirstIsTightestIff(entries: seq<Entry>, doc: string)
    requires First(entries, doc) < |entries|
    ensures var first := BoundsOf(entries[First(entries, doc)].window);
            first == Tightest(entries, doc) <==> WithinAll(first, entries, doc)
  {
    hide First, Tightest, BoundsOf;
    var i := First(entries, doc);
    var first, all := BoundsOf(entries[i].window), Tightest(entries, doc);
    WithinTightest(first, entries, doc);
    WithinTightest(all, entries, doc);
    assert Within(all, first);
  }

  /** On the input: the window that the wizard answers with is the tightest exactly when the first mention's is. */
  lemma KeptIsTightestIff(items: seq<Item>, rows: seq<Product>, x: Item, locale: Collator)
    requires IsWizardList(items, AllEntries(rows), locale) && x in items
    ensures var es := AllEntries(rows);
            && First(es, x.doc) < |es| && x.window == es[First(es, x.doc)].window
            && (BoundsOf(x.window) == Tightest(es, x.doc) <==> WithinAll(BoundsOf(x.window), es, x.doc))
  {
    hide AllEntries, Tightest, WithinAll, BoundsOf;
    FirstIsTightestIff(AllEntries(rows), x.doc);
  }

  // ---- A window that is not the tightest ----

  /** A product asking for one document from some amount on. */
  function AsksFrom(doc: string, min: real): Product {
    Product("", Array([Object([Field("category", Text(doc)), Field("min_amount", Number(min))])]))
  }

  lemma AsksFromEntries(doc: string, min: real)
    requires doc != "" && Trimmed(doc)
    ensures Entries(AsksFrom(doc, min).requiredDocuments) == [Entry(Mention(doc, true), Window(Number(min), Null))]
  {
    hide Trim;
    TrimmedFixed(doc);
    var fields := [Field("category", Text(doc)), Field("min_amount", Number(min))];
    var item := Object(fields);
    AskedFields(doc, min);
    assert ItemEntries(item) == [Entry(Mention(doc, true), Window(Number(min), Null))] by {
      hide Lookup, Get;
      assert item.Object? && !IsLabel(item);
    }
    assert [item][..0] == [];
    assert ItemsEntries([item]) == ItemsEntries([]) + ItemEntries(item);
  }

  lemma Differ(s: string, t: string, k: nat)
    requires k < |s| && k < |t| && s[k] != t[k]
    ensures s != t
  {
  }

  lemma AskedNames()
    ensures "category" != "min_amount" && "max_amount" != "category" && "max_amount" != "min_amount"
    ensures "document_type" != "category" && "document_type" != "min_amount"
    ensures "required" != "category" && "required" != "min_amount"
  {
    Differ("category", "min_amount", 0);
    Differ("max_amount", "category", 0);
    Differ("max_amount", "min_amount", 1);
    Differ("document_type", "category", 0);
    Differ("document_type", "min_amount", 0);
    Differ("required", "category", 0);
    Differ("required", "min_amount", 0);
  }

  lemma AskedFields(doc: string, min: real)
    ensures var item := Object([Field("category", Text(doc)), Field("min_amount", Number(min))]);
            && Get(item, "category") == Text(doc) && Get(item, "min_amount") == Number(min)
            && Get(item, "max_amount") == Undefined && Get(item, "document_type") == Undefined
            && Get(item, "required") == Undefined
  {
    hide Lookup;
    var a, b := Field("category", Text(doc)), Field("min_amount", Number(min));
    AskedNames();
    TwoFields(a, b, "category");
    TwoFields(a, b, "min_amount");
    TwoFields(a, b, "max_amount");
    TwoFields(a, b, "document_type");
    TwoFields(a, b, "required");
  }

  /**
   Two rows that ask for the same document from 100 and from 200: the wizard keeps 100, the tightest is 200, and the
   other way round it keeps 200.
   */
  lemma FirstWindowIsNotTightest(locale: Collator)
    ensures var low, high := AsksFrom("A/R", 100.0), AsksFrom("A/R", 200.0);
            && Tightest(AllEntries([low, high]), "A/R") == Bounds(Some(200.0), None)
            && (forall items :: IsWizardList(items, AllEntries([low, high]), locale) ==>
                  Item("A/R", true, Window(Number(100.0), Null)) in items)
            && (forall items :: IsWizardList(items, AllEntries([high, low]), locale) ==>
                  Item("A/R", true, Window(Number(200.0), Null)) in items)
  {
    hide AllEntries, Tightest, AsksFrom, IsKept;
    TwoAsks(100.0, 200.0);
    TwoAsks(200.0, 100.0);
  }

  lemma TwoAsks(a: real, b: real)
    requires a != b
    ensures var es := AllEntries([AsksFrom("A/R", a), AsksFrom("A/R", b)]);
            && IsKept(Item("A/R", true, Window(Number(a), Null)), es)
            && Tightest(es, "A/R") == Bounds(Some(if a < b then b else a), None)
  {
    hide Entries;
    var doc := "A/R";
    AsksFromEntries(doc, a);
    AsksFromEntries(doc, b);
    var rows := [AsksFrom(doc, a), AsksFrom(doc, b)];
    var e, f := Entry(Mention(doc, true), Window(Number(a), Null)), Entry(Mention(doc, true), Window(Number(b), Null));
    NoRows();
    RowsSnoc(rows, 0);
    RowsSnoc(rows, 1);
    assert rows[..0] == [] && rows[..2] == rows;
    assert AllEntries(rows) == [e, f];
    TwoEntries(e, f, doc);
  }

  lemma TwoEntries(e: Entry, f: Entry, doc: string)
    requires e.mention == f.mention == Mention(doc, true)
    ensures First([e, f], doc) == 0 && RequiredBy(MentionsOf([e, f]), doc)
    ensures Tightest([e, f], doc) == Tighter(BoundsOf(e.window), Tighter(BoundsOf(f.window), Bounds(None, None)))
  {
    hide BoundsOf, Tighter;
    assert [e, f][1..] == [f] && [f][1..] == [];
    assert Tightest([f], doc) == Tighter(BoundsOf(f.window), Tightest([], doc));
    assert MentionsOf([e, f])[0] == Mention(doc, true);
  }

  /** What the preview keeps of the windows are numbers or nothing, and bounds the same amounts. */
  lemma {:induction false} PreviewKeepsBounds(entries: seq<Entry>, doc: string)
    ensures forall i :: 0 <= i < |entries| ==>
              var w := Numeric(entries)[i].window; (w.min.Number? || w.min == Null) && (w.max.Number? || w.max == Null)
    ensures Tightest(Numeric(entries), doc) == Tightest(entries, doc)
  {
    if entries != [] {
      PreviewKeepsBounds(entries[1..], doc);
      assert Numeric(entries)[1..] == Numeric(entries[1..]);
    }
  }
}
