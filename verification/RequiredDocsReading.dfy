/**
 How single entries are read: by the validator of the product form, which looks at `category` first, and by the two
 required-documents routes, which look at `document_type` first.
 */
module RequiredDocsReading {
  import opened Options
  import opened JsStrings
  import opened JsValues
  import opened RequiredDocsUnion
  import opened RequiredDocsForm

  lemma EntryNames()
    ensures "category" != "document_type" && "category" != "required" && "category" != "stage"
    ensures "description" != "category" && "description" != "document_type"
    ensures "required" != "document_type" && "stage" != "document_type" && "stage" != "required"
    ensures "description" != "required" && "description" != "stage"
    ensures "min_amount" != "category" && "max_amount" != "category" && "max_amount" != "document_type"
    ensures "min_amount" != "document_type" && "min_amount" != "required" && "max_amount" != "required"
  {
    assert "category"[0] == 'c' && "required"[0] == 'r' && "stage"[0] == 's';
    assert "min_amount"[0] == "max_amount"[0] == 'm';
    assert "document_type"[0] == "description"[0] == 'd' && "document_type"[1] == 'o' && "description"[1] == 'e';
  }

  lemma LabelText(c: string)
    requires c != "" && Trimmed(c)
    ensures IsLabel(Text(c)) && Trim(c) == c
  {
    TrimmedFixed(c);
  }

  lemma ListedLabel(c: string)
    requires c in FORM_LABELS
    ensures c != "" && Trimmed(c)
  {
    hide FORM_LABELS;
    var i :| 0 <= i < |FORM_LABELS| && FORM_LABELS[i] == c;
  }

  lemma NamesAllowed()
    ensures "category" in ALLOWED_KEYS && "document_type" in ALLOWED_KEYS && "required" in ALLOWED_KEYS
    ensures "stage" in ALLOWED_KEYS && "description" in ALLOWED_KEYS
  {
    assert ALLOWED_KEYS[0] == "category" && ALLOWED_KEYS[1] == "required" && ALLOWED_KEYS[2] == "description";
    assert ALLOWED_KEYS[5] == "document_type" && ALLOWED_KEYS[6] == "stage";
  }

  // ---- What is reported ----

  predicate Has(fields: seq<Field>, key: string) {
    exists i :: 0 <= i < |fields| && fields[i].name == key
  }

  predicate Labelled(item: Value, category: string) {
    item.Object? && RawLabel(item) == category
  }

  /** What each report says about the item it names. */
  predicate Applies(e: Error, items: seq<Value>) {
    match e
    case NotAnArray => false
    case NotAnObject(k) => k < |items| && !items[k].Object?
    case UnrecognizedKey(k, key) =>
      k < |items| && items[k].Object? && key !in ALLOWED_KEYS && Has(items[k].fields, key)
    case MissingCategory(k) => k < |items| && Labelled(items[k], "")
    case NotInList(k, category) =>
      k < |items| && Labelled(items[k], category) && category != "" && category !in FORM_LABELS
    case Duplicate(k, category) =>
      && k < |items| && Labelled(items[k], category) && category in FORM_LABELS
      && exists i :: 0 <= i < k && Labelled(items[i], category)
  }

  lemma HasSnoc(fields: seq<Field>, key: string)
    requires fields != []
    ensures Has(fields, key) <==> Has(fields[..|fields| - 1], key) || fields[|fields| - 1].name == key
  {
    var k := |fields| - 1;
    if i :| 0 <= i < k && fields[..k][i].name == key {
      assert fields[i].name == key;
    }
  }

  lemma {:induction false} KeyErrorsAre(fields: seq<Field>, index: nat, e: Error)
    ensures e in KeyErrors(fields, index) <==>
            e.UnrecognizedKey? && e.index == index && e.key !in ALLOWED_KEYS && Has(fields, e.key)
  {
    hide ALLOWED_KEYS, Has;
    if fields == [] {
      assert !(e.UnrecognizedKey? && Has([], e.key)) by { HasNothing(e); }
    } else {
      var k := |fields| - 1;
      KeyErrorsAre(fields[..k], index, e);
      if e.UnrecognizedKey? {
        HasSnoc(fields, e.key);
      }
    }
  }

  lemma HasNothing(e: Error)
    ensures e.UnrecognizedKey? ==> !Has([], e.key)
  {
  }

  lemma EmptyIsUnlisted()
    ensures "" !in FORM_LABELS
  {
    hide FORM_LABELS;
    if "" in FORM_LABELS {
      FormLabelTrimmed("");
    }
  }

  lemma AfterItemSees(before: Outcome, item: Value, k: nat, category: string)
    ensures Seen(AfterItem(before, item, k).normalized, category) <==>
            Seen(before.normalized, category) || (Labelled(item, category) && category in FORM_LABELS)
  {
    hide FORM_LABELS, RawLabel, Description, Stage, KeyErrors, Seen;
    EmptyIsUnlisted();
    var after := AfterItem(before, item, k);
    if after.normalized != before.normalized {
      SeenSnoc(before.normalized, after.normalized[|before.normalized|]);
    }
  }

  lemma LabelledSnoc(items: seq<Value>, category: string)
    requires items != []
    ensures var k := |items| - 1;
            (exists i :: 0 <= i < |items| && Labelled(items[i], category)) <==>
            (exists i :: 0 <= i < k && Labelled(items[..k][i], category)) || Labelled(items[k], category)
  {
    hide Labelled;
    var k := |items| - 1;
    if i :| 0 <= i < k && Labelled(items[..k][i], category) {
      assert Labelled(items[i], category);
    }
    if i :| 0 <= i < |items| && Labelled(items[i], category) {
      assert i < k ==> Labelled(items[..k][i], category);
    }
  }

  /** A label is kept exactly when it is listed and some item has it. */
  lemma {:induction false} KeptMeans(items: seq<Value>, category: string)
    ensures Seen(ValidateItems(items).normalized, category) <==>
            category in FORM_LABELS && exists i :: 0 <= i < |items| && Labelled(items[i], category)
  {
    hide FORM_LABELS, AfterItem, Seen, Labelled;
    if items == [] {
      NothingSeen();
    } else {
      var k := |items| - 1;
      KeptMeans(items[..k], category);
      AfterItemSees(ValidateItems(items[..k]), items[k], k, category);
      LabelledSnoc(items, category);
    }
  }

  /** What an item gives rise to, after those that were kept. */
  predicate Reports(e: Error, kept: seq<FormDoc>, item: Value, index: nat) {
    match e
    case NotAnArray => false
    case NotAnObject(k) => k == index && !item.Object?
    case UnrecognizedKey(k, key) =>
      k == index && item.Object? && key !in ALLOWED_KEYS && Has(item.fields, key)
    case MissingCategory(k) => k == index && Labelled(item, "")
    case NotInList(k, category) =>
      k == index && Labelled(item, category) && category != "" && category !in FORM_LABELS
    case Duplicate(k, category) =>
      k == index && Labelled(item, category) && category in FORM_LABELS && Seen(kept, category)
  }

  lemma AfterItemReports(before: Outcome, item: Value, k: nat, e: Error)
    ensures e in AfterItem(before, item, k).errors <==> e in before.errors || Reports(e, before.normalized, item, k)
  {
    hide FORM_LABELS, ALLOWED_KEYS, RawLabel, Description, Stage, KeyErrors, Seen, Has;
    EmptyIsUnlisted();
    if item.Object? {
      KeyErrorsAre(item.fields, k, e);
    }
  }

  lemma AppliesSnoc(items: seq<Value>, e: Error)
    requires items != []
    ensures var k := |items| - 1;
            Applies(e, items) <==>
            Applies(e, items[..k]) || Reports(e, ValidateItems(items[..k]).normalized, items[k], k)
  {
    hide FORM_LABELS, ALLOWED_KEYS, Labelled, Seen, ValidateItems;
    var k := |items| - 1;
    if e.Duplicate? {
      KeptMeans(items[..k], e.category);
      assert forall i :: 0 <= i < k ==> items[..k][i] == items[i];
    }
  }

  /** A report is made exactly when it applies. */
  lemma {:induction false} ErrorsMean(items: seq<Value>, e: Error)
    ensures e in ValidateItems(items).errors <==> Applies(e, items)
  {
    hide AfterItem, Applies, Reports;
    if items == [] {
      NothingApplies(e);
    } else {
      var k := |items| - 1;
      ErrorsMean(items[..k], e);
      AfterItemReports(ValidateItems(items[..k]), items[k], k, e);
      AppliesSnoc(items, e);
    }
  }

  lemma NothingApplies(e: Error)
    ensures !Applies(e, [])
  {
  }

  /** A single clean item is kept as `Normal` reads it. */
  lemma OneItem(item: Value)
    requires GoodItem(item)
    ensures ValidateItems([item]) == Outcome([Normal(item)], [])
  {
    hide GoodItem, Normal, ValidateItems;
    OneIsGood(item);
    NoErrorsMeans([item]);
  }

  lemma OneIsGood(item: Value)
    requires GoodItem(item)
    ensures GoodItems([item])
  {
    hide GoodItem, RawLabel;
  }

  function TypeAndCategory(doc: string, category: string): Value {
    Object([Field("document_type", Text(doc)), Field("category", Text(category))])
  }

  lemma TypeAndCategoryFields(doc: string, category: string)
    ensures var item := TypeAndCategory(doc, category);
            && Get(item, "document_type") == Text(doc) && Get(item, "category") == Text(category)
            && Get(item, "required") == Get(item, "description") == Get(item, "stage") == Undefined
            && Get(item, "min_amount") == Get(item, "max_amount") == Undefined
  {
    hide Lookup;
    EntryNames();
    var a, b := Field("document_type", Text(doc)), Field("category", Text(category));
    TwoFields(a, b, "document_type");
    TwoFields(a, b, "category");
    TwoFields(a, b, "required");
    TwoFields(a, b, "description");
    TwoFields(a, b, "stage");
    TwoFields(a, b, "min_amount");
    TwoFields(a, b, "max_amount");
    assert "stage"[0] == 's' && "document_type"[0] == "description"[0] == 'd' && "description"[1] == 'e';
  }

  /** With both names given, the form keeps the `category`, and asks for it at stage 1 as required. */
  lemma FormReadsCategory(doc: string, category: string)
    requires category in FORM_LABELS
    ensures ValidateItems([TypeAndCategory(doc, category)]) == Outcome([FormDoc(category, true, None, 1)], [])
  {
    hide Get, Trim, FORM_LABELS, ALLOWED_KEYS, ValidateItems, IsLabel;
    var item := TypeAndCategory(doc, category);
    TypeAndCategoryFields(doc, category);
    ListedLabel(category);
    LabelText(category);
    NamesAllowed();
    UndefinedIsNoLabel();
    assert RawLabel(item) == category;
    assert GoodItem(item);
    OneItem(item);
  }

  lemma UndefinedIsNoLabel()
    ensures !IsLabel(Undefined) && !IsLabel(Null)
  {
  }

  lemma ObjectIsNoLabel(item: Value)
    requires item.Object?
    ensures !IsLabel(item)
  {
  }

  /** With both names given, the routes mention the `document_type`. */
  lemma RoutesReadType(doc: string, category: string)
    requires doc != "" && Trimmed(doc)
    ensures Entries(Array([TypeAndCategory(doc, category)])) == [Entry(Mention(doc, true), NO_WINDOW)]
  {
    hide Get, Trim, IsLabel, ItemsEntries;
    var item := TypeAndCategory(doc, category);
    TypeAndCategoryFields(doc, category);
    LabelText(doc);
    ObjectIsNoLabel(item);
    assert item.Object? && ItemEntries(item) == [Entry(Mention(doc, true), NO_WINDOW)];
    OneEntry(item);
  }

  lemma OneEntry(item: Value)
    ensures Entries(Array([item])) == ItemEntries(item)
  {
    hide ItemEntries;
    NothingMentioned();
    ItemsSnoc([item], 0);
    assert [item][..1] == [item] && [item][..0] == [];
  }

  function OnlyType(doc: string, flag: Field): Value {
    Object([Field("document_type", Text(doc)), flag])
  }

  /** Without a `category` the form, too, takes the `document_type`. */
  lemma FormReadsTypeOtherwise(doc: string)
    requires doc in FORM_LABELS
    ensures ValidateItems([OnlyType(doc, Field("description", Null))]) == Outcome([FormDoc(doc, true, None, 1)], [])
  {
    hide Lookup, Trim, FORM_LABELS, ALLOWED_KEYS, ValidateItems, IsLabel;
    var a, b := Field("document_type", Text(doc)), Field("description", Null);
    var item := OnlyType(doc, b);
    EntryNames();
    ListedLabel(doc);
    LabelText(doc);
    NamesAllowed();
    UndefinedIsNoLabel();
    TwoFields(a, b, "document_type");
    TwoFields(a, b, "category");
    TwoFields(a, b, "required");
    TwoFields(a, b, "description");
    TwoFields(a, b, "stage");
    assert "stage"[0] == 's' && "description"[0] == 'd';
    assert RawLabel(item) == doc && GoodItem(item);
    OneItem(item);
  }

  function Flagged(category: string, flag: Field): Value {
    Object([Field("category", Text(category)), flag])
  }

  /** An entry is optional for form and routes alike exactly when `required` is the boolean `false`. */
  lemma OnlyFalseIsOptional(category: string, v: Value)
    requires category in FORM_LABELS
    ensures var item := Flagged(category, Field("required", v));
            && ValidateItems([item]) == Outcome([FormDoc(category, v != Bool(false), None, 1)], [])
            && Entries(Array([item])) == [Entry(Mention(category, v != Bool(false)), NO_WINDOW)]
  {
    hide Lookup, Trim, FORM_LABELS, ALLOWED_KEYS, ValidateItems, IsLabel, ItemsEntries;
    var a, b := Field("category", Text(category)), Field("required", v);
    var item := Flagged(category, b);
    EntryNames();
    ListedLabel(category);
    LabelText(category);
    NamesAllowed();
    UndefinedIsNoLabel();
    ObjectIsNoLabel(item);
    TwoFields(a, b, "category");
    TwoFields(a, b, "document_type");
    TwoFields(a, b, "required");
    TwoFields(a, b, "description");
    TwoFields(a, b, "stage");
    TwoFields(a, b, "min_amount");
    TwoFields(a, b, "max_amount");
    assert RawLabel(item) == category && GoodItem(item);
    OneItem(item);
    OneEntry(item);
  }

  /** Stage 2 is 2 or "2"; everything else is stage 1. */
  lemma StageIsOneOrTwo(category: string, v: Value)
    requires category in FORM_LABELS
    ensures ValidateItems([Flagged(category, Field("stage", v))]) ==
            Outcome([FormDoc(category, true, None, if v == Number(2.0) || v == Text("2") then 2 else 1)], [])
  {
    hide Lookup, Trim, FORM_LABELS, ALLOWED_KEYS, ValidateItems, IsLabel;
    var a, b := Field("category", Text(category)), Field("stage", v);
    var item := Flagged(category, b);
    EntryNames();
    ListedLabel(category);
    LabelText(category);
    NamesAllowed();
    UndefinedIsNoLabel();
    TwoFields(a, b, "category");
    TwoFields(a, b, "required");
    TwoFields(a, b, "description");
    TwoFields(a, b, "stage");
    assert RawLabel(item) == category && GoodItem(item);
    OneItem(item);
  }

  lemma BoundNames()
    ensures "min_amount" != "max_amount"
  {
    assert "min_amount"[1] != "max_amount"[1];
  }

  /** The bounds of an entry are read from where they are saved; either may be missing. */
  lemma BoundsAreRead(category: string, v: Value)
    requires category != "" && Trimmed(category) && v != Undefined
    ensures Entries(Array([Flagged(category, Field("min_amount", v))])) ==
            [Entry(Mention(category, true), Window(v, Null))]
    ensures Entries(Array([Flagged(category, Field("max_amount", v))])) ==
            [Entry(Mention(category, true), Window(Null, v))]
  {
    hide Get, Trim, IsLabel, ItemsEntries;
    LabelText(category);
    UndefinedIsNoLabel();
    forall name | name == "min_amount" || name == "max_amount"
      ensures Entries(Array([Flagged(category, Field(name, v))])) ==
              [Entry(Mention(category, true), if name == "min_amount" then Window(v, Null) else Window(Null, v))]
    {
      var item := Flagged(category, Field(name, v));
      BoundFields(category, name, v);
      ObjectIsNoLabel(item);
      OneEntry(item);
    }
  }

  lemma BoundFields(category: string, name: string, v: Value)
    requires name == "min_amount" || name == "max_amount"
    ensures var item := Flagged(category, Field(name, v));
            && Get(item, "category") == Text(category) && Get(item, name) == v
            && Get(item, if name == "min_amount" then "max_amount" else "min_amount") == Undefined
            && Get(item, "document_type") == Get(item, "required") == Undefined
  {
    hide Lookup;
    EntryNames();
    BoundNames();
    var a, b := Field("category", Text(category)), Field(name, v);
    TwoFields(a, b, "category");
    TwoFields(a, b, "document_type");
    TwoFields(a, b, "required");
    TwoFields(a, b, "min_amount");
    TwoFields(a, b, "max_amount");
  }

  /** The other two saved shapes: a list of names, all required, and a map, whose truthy members are. */
  lemma NamesAndMaps(name: string, v: Value)
    requires name != "" && Trimmed(name)
    ensures Entries(Array([Text(name)])) == [Entry(Mention(name, true), NO_WINDOW)]
    ensures Entries(Object([Field(name, v)])) == if Truthy(v) then [Entry(Mention(name, true), NO_WINDOW)] else []
  {
    hide Trim, IsLabel, ItemsEntries, FieldsEntries;
    LabelText(name);
    OneEntry(Text(name));
    NothingMentioned();
    var fields := [Field(name, v)];
    FieldsSnoc(fields, 0);
    assert fields[..1] == fields && fields[..0] == [];
  }
}
