/**
 The union of required documents over product rows, and the wizard's loop that computes it
 (src/routes/lenderProductsRequiredDocs.ts).
 */
module RequiredDocsUnion {
  import opened JsStrings
  import opened JsValues
  import opened Sorting

  /** One product asking for one document. */
  datatype Mention = Mention(doc: string, required: bool)

  /** The amounts that a mention is for, as saved; `Null` is no bound. */
  datatype Window = Window(min: Value, max: Value)

  const NO_WINDOW := Window(Null, Null)

  datatype Entry = Entry(mention: Mention, window: Window)

  datatype Product = Product(name: string, requiredDocuments: Value)

  // ---- What a saved `required_documents` value mentions ----

  function ItemEntries(item: Value): seq<Entry> {
    if IsLabel(item) then [Entry(Mention(Trim(item.s), true), NO_WINDOW)]
    else if !item.Array? && !item.Object? then []
    else
      var required := Get(item, "required") != Bool(false);
      var window := Window(OrNull(Get(item, "min_amount")), OrNull(Get(item, "max_amount")));
      if IsLabel(Get(item, "document_type")) then
        [Entry(Mention(Trim(Get(item, "document_type").s), required), window)]
      else if IsLabel(Get(item, "category")) then
        [Entry(Mention(Trim(Get(item, "category").s), required), window)]
      else []
  }

  function FieldEntries(f: Field): seq<Entry> {
    if f.name != "" && Truthy(f.value) then [Entry(Mention(f.name, true), NO_WINDOW)] else []
  }

  function ItemsEntries(items: seq<Value>): seq<Entry> {
    if items == [] then [] else ItemsEntries(items[..|items| - 1]) + ItemEntries(items[|items| - 1])
  }

  function FieldsEntries(fields: seq<Field>): seq<Entry> {
    if fields == [] then [] else FieldsEntries(fields[..|fields| - 1]) + FieldEntries(fields[|fields| - 1])
  }

  function Entries(saved: Value): seq<Entry> {
    match saved
    case Array(items) => ItemsEntries(items)
    case Object(fields) => FieldsEntries(fields)
    case _ => []
  }

  function AllEntries(rows: seq<Product>): seq<Entry> {
    if rows == [] then [] else AllEntries(rows[..|rows| - 1]) + Entries(rows[|rows| - 1].requiredDocuments)
  }

  function MentionsOf(entries: seq<Entry>): (r: seq<Mention>)
    ensures |r| == |entries| && forall i :: 0 <= i < |r| ==> r[i] == entries[i].mention
  {
    seq(|entries|, i requires 0 <= i < |entries| => entries[i].mention)
  }

  function AllMentions(rows: seq<Product>): seq<Mention> {
    MentionsOf(AllEntries(rows))
  }

  lemma MentionsOfConcat(a: seq<Entry>, b: seq<Entry>)
    ensures MentionsOf(a + b) == MentionsOf(a) + MentionsOf(b)
  {
  }

  lemma RowsSnoc(rows: seq<Product>, i: nat)
    requires i < |rows|
    ensures AllEntries(rows[..i + 1]) == AllEntries(rows[..i]) + Entries(rows[i].requiredDocuments)
    ensures AllMentions(rows[..i + 1]) == AllMentions(rows[..i]) + MentionsOf(Entries(rows[i].requiredDocuments))
  {
    hide Entries;
    assert rows[..i + 1][..i] == rows[..i];
    MentionsOfConcat(AllEntries(rows[..i]), Entries(rows[i].requiredDocuments));
  }

  // ---- The union, without any order: a document is listed when mentioned, and required when some mention is ----

  predicate Mentioned(ms: seq<Mention>, doc: string) {
    exists i :: 0 <= i < |ms| && ms[i].doc == doc
  }

  predicate RequiredBy(ms: seq<Mention>, doc: string) {
    exists i :: 0 <= i < |ms| && ms[i] == Mention(doc, true)
  }

  ghost predicate IsUnion(m: map<string, bool>, ms: seq<Mention>) {
    forall doc :: (doc in m <==> Mentioned(ms, doc)) && (doc in m ==> m[doc] == RequiredBy(ms, doc))
  }

  /** The union is determined by what is mentioned. */
  lemma UnionUnique(m: map<string, bool>, n: map<string, bool>, ms: seq<Mention>)
    requires IsUnion(m, ms) && IsUnion(n, ms)
    ensures m == n
  {
    assert forall doc :: doc in m <==> doc in n;
  }

  /** Neither the order of rows nor that of entries matters. */
  lemma UnionIgnoresOrder(m: map<string, bool>, ms: seq<Mention>, ns: seq<Mention>)
    requires IsUnion(m, ms) && multiset(ms) == multiset(ns)
    ensures IsUnion(m, ns)
  {
    assert forall x :: x in ms <==> x in multiset(ms);
    assert forall x :: x in ns <==> x in multiset(ns);
    forall doc
      ensures Mentioned(ms, doc) == Mentioned(ns, doc) && RequiredBy(ms, doc) == RequiredBy(ns, doc)
    {
      SameMembers(ms, ns, doc);
      SameMembers(ns, ms, doc);
    }
  }

  lemma SameMembers(ms: seq<Mention>, ns: seq<Mention>, doc: string)
    requires forall x :: x in ms ==> x in ns
    ensures Mentioned(ms, doc) ==> Mentioned(ns, doc)
    ensures RequiredBy(ms, doc) ==> RequiredBy(ns, doc)
  {
    if Mentioned(ms, doc) {
      var i :| 0 <= i < |ms| && ms[i].doc == doc;
      assert ms[i] in ns;
    }
    if RequiredBy(ms, doc) {
      assert Mention(doc, true) in ns;
    }
  }

  lemma MentionedConcat(a: seq<Mention>, b: seq<Mention>, doc: string)
    ensures Mentioned(a + b, doc) <==> Mentioned(a, doc) || Mentioned(b, doc)
    ensures RequiredBy(a + b, doc) <==> RequiredBy(a, doc) || RequiredBy(b, doc)
  {
    var c := a + b;
    if Mentioned(a, doc) {
      var i :| 0 <= i < |a| && a[i].doc == doc;
      assert c[i].doc == doc;
    }
    if Mentioned(b, doc) {
      var i :| 0 <= i < |b| && b[i].doc == doc;
      assert c[|a| + i].doc == doc;
    }
    if RequiredBy(a, doc) {
      var i :| 0 <= i < |a| && a[i] == Mention(doc, true);
      assert c[i] == Mention(doc, true);
    }
    if RequiredBy(b, doc) {
      var i :| 0 <= i < |b| && b[i] == Mention(doc, true);
      assert c[|a| + i] == Mention(doc, true);
    }
  }

  lemma OneMention(x: Mention, doc: string)
    ensures Mentioned([x], doc) <==> x.doc == doc
    ensures RequiredBy([x], doc) <==> x == Mention(doc, true)
  {
    assert [x][0] == x;
  }

  /** One more mention adds its document or ORs its flag. */
  lemma UnionSnoc(m: map<string, bool>, ms: seq<Mention>, x: Mention)
    requires IsUnion(m, ms)
    ensures IsUnion(m[x.doc := (x.doc in m && m[x.doc]) || x.required], ms + [x])
  {
    forall doc
      ensures Mentioned(ms + [x], doc) <==> Mentioned(ms, doc) || x.doc == doc
      ensures RequiredBy(ms + [x], doc) <==> RequiredBy(ms, doc) || x == Mention(doc, true)
      ensures !Mentioned(ms, doc) ==> !RequiredBy(ms, doc)
    {
      MentionedConcat(ms, [x], doc);
      OneMention(x, doc);
    }
  }

  // ---- The listed union: by document name ----

  function MentionName(x: Mention): string {
    x.doc
  }

  /** The union as a list, in ascending order of the documents. */
  ghost predicate ListsUnion(list: seq<Mention>, ms: seq<Mention>, locale: Collator) {
    && Ascending(list, MentionName, locale)
    && forall x :: x in list <==> Mentioned(ms, x.doc) && x.required == RequiredBy(ms, x.doc)
  }

  /** What is mentioned and required determines the list. */
  lemma ListingUnique(list: seq<Mention>, ms: seq<Mention>, list': seq<Mention>, ms': seq<Mention>, locale: Collator)
    requires IsCollator(locale) && ListsUnion(list, ms, locale) && ListsUnion(list', ms', locale)
    requires forall doc :: Mentioned(ms, doc) == Mentioned(ms', doc) && RequiredBy(ms, doc) == RequiredBy(ms', doc)
    ensures list == list'
  {
    hide IsCollator, Ascending, Mentioned, RequiredBy;
    AscendingUnique(list, list', MentionName, locale);
  }

  /** What the rows mention is what some row mentions. */
  lemma {:induction false} AllMentionsMeans(rows: seq<Product>, doc: string)
    ensures Mentioned(AllMentions(rows), doc) <==>
            exists r :: r in rows && Mentioned(MentionsOf(Entries(r.requiredDocuments)), doc)
    ensures RequiredBy(AllMentions(rows), doc) <==>
            exists r :: r in rows && RequiredBy(MentionsOf(Entries(r.requiredDocuments)), doc)
  {
    hide Entries, AllMentions, MentionsOf;
    if rows == [] {
      NoRows();
    } else {
      var k := |rows| - 1;
      AllMentionsMeans(rows[..k], doc);
      RowsSnoc(rows, k);
      MentionedConcat(AllMentions(rows[..k]), MentionsOf(Entries(rows[k].requiredDocuments)), doc);
      assert rows[..k + 1] == rows == rows[..k] + [rows[k]];
    }
  }

  lemma NoRows()
    ensures AllEntries([]) == [] && AllMentions([]) == []
  {
  }

  /** The order of the rows does not matter. */
  lemma RowOrderIsIrrelevant(rows: seq<Product>, rows': seq<Product>, doc: string)
    requires multiset(rows) == multiset(rows')
    ensures Mentioned(AllMentions(rows), doc) == Mentioned(AllMentions(rows'), doc)
    ensures RequiredBy(AllMentions(rows), doc) == RequiredBy(AllMentions(rows'), doc)
  {
    hide AllMentions, Mentioned, RequiredBy, Entries;
    assert forall r :: r in rows <==> r in multiset(rows);
    assert forall r :: r in rows' <==> r in multiset(rows');
    AllMentionsMeans(rows, doc);
    AllMentionsMeans(rows', doc);
  }

  // ---- The wizard's loop ----

  lemma NothingMentioned()
    ensures ItemsEntries([]) == [] && FieldsEntries([]) == []
  {
  }

  lemma ItemsSnoc(items: seq<Value>, i: nat)
    requires i < |items|
    ensures ItemsEntries(items[..i + 1]) == ItemsEntries(items[..i]) + ItemEntries(items[i])
  {
    hide ItemEntries;
    assert items[..i + 1][..i] == items[..i];
  }

  lemma FieldsSnoc(fields: seq<Field>, i: nat)
    requires i < |fields|
    ensures FieldsEntries(fields[..i + 1]) == FieldsEntries(fields[..i]) + FieldEntries(fields[i])
  {
    hide FieldEntries;
    assert fields[..i + 1][..i] == fields[..i];
  }

  method WizardEntries(saved: Value) returns (entries: seq<Entry>)
    ensures entries == Entries(saved)
  {
    hide Trim, Get, ItemsEntries, FieldsEntries;
    NothingMentioned();
    entries := [];
    if saved.Array? {
      var i := 0;
      while i < |saved.items|
        invariant 0 <= i <= |saved.items| && entries == ItemsEntries(saved.items[..i])
      {
        var item := saved.items[i];
        if item.Text? && Trim(item.s) != "" {
          entries := entries + [Entry(Mention(Trim(item.s), true), NO_WINDOW)];
        } else if item.Array? || item.Object? {
          var documentType, category := Get(item, "document_type"), Get(item, "category");
          var docType := if documentType.Text? && Trim(documentType.s) != "" then Text(Trim(documentType.s))
                         else if category.Text? && Trim(category.s) != "" then Text(Trim(category.s))
                         else Null;
          if docType.Text? {
            entries := entries + [Entry(Mention(docType.s, Get(item, "required") != Bool(false)),
                                        Window(OrNull(Get(item, "min_amount")), OrNull(Get(item, "max_amount"))))];
          }
        }
        ItemsSnoc(saved.items, i);
        i := i + 1;
      }
      assert saved.items[..i] == saved.items;
    } else if saved.Object? {
      var i := 0;
      while i < |saved.fields|
        invariant 0 <= i <= |saved.fields| && entries == FieldsEntries(saved.fields[..i])
      {
        var f := saved.fields[i];
        if f.name != "" && Truthy(f.value) {
          entries := entries + [Entry(Mention(f.name, Truthy(f.value)), NO_WINDOW)];
        }
        FieldsSnoc(saved.fields, i);
        i := i + 1;
      }
      assert saved.fields[..i] == saved.fields;
    }
  }

  datatype Item = Item(doc: string, required: bool, window: Window)

  function ItemName(x: Item): string {
    x.doc
  }

  /** The position of the first mention of `doc`, or the length when there is none. */
  function First(entries: seq<Entry>, doc: string): (i: nat)
    ensures i <= |entries|
    ensures i < |entries| ==> entries[i].mention.doc == doc
    ensures forall j :: 0 <= j < i ==> entries[j].mention.doc != doc
  {
    if entries == [] || entries[0].mention.doc == doc then 0 else 1 + First(entries[1..], doc)
  }

  /** Each document of the map is kept under its name, with the window of its first mention. */
  ghost predicate KeepsFirst(m: map<string, Item>, entries: seq<Entry>) {
    forall doc :: doc in m ==>
      && m[doc].doc == doc
      && First(entries, doc) < |entries| && m[doc].window == entries[First(entries, doc)].window
  }

  function ItemFlags(m: map<string, Item>): map<string, bool> {
    map doc | doc in m :: m[doc].required
  }

  /** The insertion order of a map: its keys, each once. */
  ghost predicate IsOrder<T>(order: seq<string>, m: map<string, T>) {
    (forall k :: k in order <==> k in m) && forall i, j :: 0 <= i < j < |order| ==> order[i] != order[j]
  }

  ghost predicate WizardState(m: map<string, Item>, order: seq<string>, entries: seq<Entry>) {
    IsUnion(ItemFlags(m), MentionsOf(entries)) && KeepsFirst(m, entries) && IsOrder(order, m)
  }

  lemma FirstSnoc(entries: seq<Entry>, e: Entry, doc: string)
    ensures First(entries, doc) < |entries| ==> First(entries + [e], doc) == First(entries, doc)
    ensures First(entries, doc) == |entries| && e.mention.doc == doc ==> First(entries + [e], doc) == |entries|
  {
    var es := entries + [e];
    assert forall k :: 0 <= k < |entries| ==> es[k] == entries[k];
    assert es[|entries|] == e;
    var i, j := First(entries, doc), First(es, doc);
    if i < |entries| {
      assert es[i].mention.doc == doc;
    }
  }

  lemma FirstMentioned(entries: seq<Entry>, doc: string)
    ensures First(entries, doc) < |entries| <==> Mentioned(MentionsOf(entries), doc)
  {
    var ms, i := MentionsOf(entries), First(entries, doc);
    if i < |entries| {
      assert ms[i].doc == doc;
    }
    if k :| 0 <= k < |ms| && ms[k].doc == doc {
      assert entries[k].mention.doc == doc;
    }
  }

  /** What the loop body does to the map. */
  function AddEntry(m: map<string, Item>, e: Entry): map<string, Item> {
    var doc := e.mention.doc;
    if doc in m then m[doc := m[doc].(required := m[doc].required || e.mention.required)]
    else m[doc := Item(doc, e.mention.required, e.window)]
  }

  lemma AddEntryFlags(m: map<string, Item>, entries: seq<Entry>, e: Entry)
    requires IsUnion(ItemFlags(m), MentionsOf(entries))
    ensures IsUnion(ItemFlags(AddEntry(m, e)), MentionsOf(entries + [e]))
  {
    hide IsUnion;
    var f, m', doc := ItemFlags(m), AddEntry(m, e), e.mention.doc;
    UnionSnoc(f, MentionsOf(entries), e.mention);
    assert ItemFlags(m') == f[doc := (doc in f && f[doc]) || e.mention.required];
    assert MentionsOf(entries + [e]) == MentionsOf(entries) + [e.mention];
  }

  lemma AddEntryFirst(m: map<string, Item>, entries: seq<Entry>, e: Entry)
    requires IsUnion(ItemFlags(m), MentionsOf(entries)) && KeepsFirst(m, entries)
    ensures KeepsFirst(AddEntry(m, e), entries + [e])
  {
    hide IsUnion, First, Mentioned, MentionsOf;
    InUnion(ItemFlags(m), MentionsOf(entries), e.mention.doc);
    FirstMentioned(entries, e.mention.doc);
    forall doc | doc in AddEntry(m, e)
      ensures First(entries + [e], doc) ==
              if doc in m then First(entries, doc) else |entries|
    {
      FirstSnoc(entries, e, doc);
    }
  }

  lemma AddEntryKeeps(m: map<string, Item>, order: seq<string>, entries: seq<Entry>, e: Entry)
    requires WizardState(m, order, entries)
    ensures WizardState(AddEntry(m, e), if e.mention.doc in m then order else order + [e.mention.doc], entries + [e])
  {
    hide IsUnion, KeepsFirst;
    AddEntryFlags(m, entries, e);
    AddEntryFirst(m, entries, e);
  }

  lemma InUnion(f: map<string, bool>, ms: seq<Mention>, doc: string)
    requires IsUnion(f, ms)
    ensures doc in f <==> Mentioned(ms, doc)
    ensures doc in f ==> f[doc] == RequiredBy(ms, doc)
  {
  }

  /** The wizard's map over all rows, and its insertion order. */
  method WizardUnion(rows: seq<Product>) returns (m: map<string, Item>, order: seq<string>)
    ensures WizardState(m, order, AllEntries(rows))
  {
    hide WizardState, Entries, AllEntries, AllMentions;
    m, order := map[], [];
    EmptyUnion();
    var i := 0;
    while i < |rows|
      invariant 0 <= i <= |rows| && WizardState(m, order, AllEntries(rows[..i]))
    {
      var entries := WizardEntries(rows[i].requiredDocuments);
      var j := 0;
      ghost var before := AllEntries(rows[..i]);
      assert before + entries[..0] == before;
      while j < |entries|
        invariant 0 <= j <= |entries| && WizardState(m, order, before + entries[..j])
      {
        var e := entries[j];
        AddEntryKeeps(m, order, before + entries[..j], e);
        assert before + entries[..j] + [e] == before + entries[..j + 1];
        if e.mention.doc !in m {
          m := m[e.mention.doc := Item(e.mention.doc, e.mention.required, e.window)];
          order := order + [e.mention.doc];
        } else {
          var prev := m[e.mention.doc];
          m := m[e.mention.doc := prev.(required := prev.required || e.mention.required)];
        }
        j := j + 1;
      }
      assert entries[..j] == entries;
      RowsSnoc(rows, i);
      i := i + 1;
    }
    assert rows[..i] == rows;
  }

  lemma EmptyUnion()
    ensures WizardState(map[], [], []) && AllEntries([]) == []
  {
  }

  /** `Array.from(map.values())` */
  function MapValues<T>(m: map<string, T>, order: seq<string>): (r: seq<T>)
    requires IsOrder(order, m)
    ensures |r| == |order| && forall i :: 0 <= i < |r| ==> r[i] == m[order[i]]
  {
    seq(|order|, i requires 0 <= i < |order| => m[order[i]])
  }

  /**
   The wizard's answer: in ascending order, every mentioned document once, required when some mention requires it, with
   the window of its first mention.
   */
  ghost predicate IsWizardList(items: seq<Item>, entries: seq<Entry>, locale: Collator) {
    && Ascending(items, ItemName, locale)
    && forall x :: x in items <==> IsKept(x, entries)
  }

  predicate IsKept(x: Item, entries: seq<Entry>) {
    && First(entries, x.doc) < |entries|
    && x.window == entries[First(entries, x.doc)].window
    && x.required == RequiredBy(MentionsOf(entries), x.doc)
  }

  method WizardItems(rows: seq<Product>, locale: Collator) returns (items: seq<Item>)
    requires IsCollator(locale)
    ensures IsWizardList(items, AllEntries(rows), locale)
  {
    hide IsCollator, WizardState, Sort, AllEntries, IsKept;
    var m, order := WizardUnion(rows);
    assert IsOrder(order, m) by { OrderOf(m, order, AllEntries(rows)); }
    var values := MapValues(m, order);
    items := Sort(values, NameLe(ItemName, locale));
    ValuesAreKept(m, order, AllEntries(rows));
    SortAscends(values, ItemName, locale);
  }

  lemma OrderOf(m: map<string, Item>, order: seq<string>, entries: seq<Entry>)
    requires WizardState(m, order, entries)
    ensures IsOrder(order, m)
  {
  }

  lemma ValuesAreKept(m: map<string, Item>, order: seq<string>, entries: seq<Entry>)
    requires WizardState(m, order, entries) && IsOrder(order, m)
    ensures DistinctNames(MapValues(m, order), ItemName)
    ensures forall x :: x in MapValues(m, order) <==> IsKept(x, entries)
  {
    hide First, RequiredBy, Mentioned, IsUnion;
    var values := MapValues(m, order);
    forall x
      ensures x in values <==> IsKept(x, entries)
    {
      FirstMentioned(entries, x.doc);
      InUnion(ItemFlags(m), MentionsOf(entries), x.doc);
      if x in values {
        var i :| 0 <= i < |values| && values[i] == x;
        assert m[order[i]] == x && order[i] in m;
        assert x.doc == order[i];
      }
      if IsKept(x, entries) {
        assert x.doc in order;
        var i :| 0 <= i < |order| && order[i] == x.doc;
        assert m[x.doc] == x;
        assert values[i] == x;
      }
    }
  }

  /** The wizard's documents and flags. */
  function Listed(items: seq<Item>): (r: seq<Mention>)
    ensures |r| == |items| && forall i :: 0 <= i < |r| ==> r[i] == Mention(items[i].doc, items[i].required)
  {
    seq(|items|, i requires 0 <= i < |items| => Mention(items[i].doc, items[i].required))
  }

  lemma WizardLists(items: seq<Item>, entries: seq<Entry>, locale: Collator)
    requires IsWizardList(items, entries, locale)
    ensures ListsUnion(Listed(items), MentionsOf(entries), locale)
  {
    hide First, RequiredBy, Mentioned;
    var list := Listed(items);
    assert Ascending(list, MentionName, locale) by { NamesKept(items, list, locale); }
    forall x
      ensures x in list <==>
              Mentioned(MentionsOf(entries), x.doc) && x.required == RequiredBy(MentionsOf(entries), x.doc)
    {
      FirstMentioned(entries, x.doc);
      if x in list {
        var i :| 0 <= i < |list| && list[i] == x;
        assert items[i] in items;
      }
      if Mentioned(MentionsOf(entries), x.doc) && x.required == RequiredBy(MentionsOf(entries), x.doc) {
        var y := Item(x.doc, x.required, entries[First(entries, x.doc)].window);
        assert y in items;
        var i :| 0 <= i < |items| && items[i] == y;
        assert list[i] == x;
      }
    }
  }

  lemma NamesKept(items: seq<Item>, list: seq<Mention>, locale: Collator)
    requires Ascending(items, ItemName, locale) && |list| == |items|
    requires forall i :: 0 <= i < |list| ==> list[i].doc == items[i].doc
    ensures Ascending(list, MentionName, locale)
  {
    forall i, j | 0 <= i < j < |list|
      ensures locale(MentionName(list[i]), MentionName(list[j])) < 0
    {
      assert locale(ItemName(items[i]), ItemName(items[j])) < 0;
    }
  }
}
