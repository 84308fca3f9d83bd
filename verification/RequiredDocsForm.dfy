/**
 `validateAndNormalizeRequiredDocuments` of src/routes/portalLenderProducts.ts: what the lender-product form may save,
 and that what it saves validates to itself and is later read back unchanged.
 */
module RequiredDocsForm {
  import opened Options
  import opened JsStrings
  import opened JsValues
  import opened RequiredDocsUnion

  /** A label that `trim` leaves alone. */
  type FormLabel = s: string | s != "" && Trimmed(s) witness "A/R"

  // The labels the form can produce. The longest are written in two halves, which keeps the proof that they are trimmed
  // short.
  const BANK_STATEMENTS: FormLabel := "6 months business banking statements"
  const EQUIPMENT_INVOICE: FormLabel := "Purchase Order or Invoice" + " of Equipment to finance"
  const ACCOUNTANT_FINANCIALS: FormLabel := "3 years accountant" + " prepared financials"
  const BUSINESS_TAX_RETURNS: FormLabel := "3 years business tax returns"
  const INTERIM_PNL: FormLabel := "PnL – Interim financials"
  const INTERIM_BALANCE_SHEET: FormLabel := "Balance Sheet – Interim financials"
  const RECEIVABLES: FormLabel := "A/R"
  const PAYABLES: FormLabel := "A/P"
  const GOVERNMENT_ID: FormLabel := "2 pieces of Government Issued ID"
  const VOID_CHEQUE: FormLabel := "VOID cheque or PAD"
  const NET_WORTH: FormLabel := "Personal net worth statement"
  const PERSONAL_TAX_RETURNS: FormLabel := "2 years personal tax returns" + " (T1 generals)"
  const CORPORATE_STRUCTURE: FormLabel := "Corporate structure / org chart"
  const BUSINESS_PLAN: FormLabel := "Business plan / projections"
  const LEASE: FormLabel := "Lease agreement (if applicable)"
  const DEBT_STACK: FormLabel := "Debt stack"
  const BUDGET: FormLabel := "Budget"
  const FINANCE_PLAN: FormLabel := "Finance plan"
  const TAX_CREDIT: FormLabel := "Tax credit status"
  const SCHEDULE: FormLabel := "Production schedule"
  const PRESALES: FormLabel := "Minimum guarantees / presales"

  const FORM_LABELS: seq<FormLabel> := [
    BANK_STATEMENTS, EQUIPMENT_INVOICE, ACCOUNTANT_FINANCIALS, BUSINESS_TAX_RETURNS, INTERIM_PNL,
    INTERIM_BALANCE_SHEET, RECEIVABLES, PAYABLES, GOVERNMENT_ID, VOID_CHEQUE, NET_WORTH,
    PERSONAL_TAX_RETURNS, CORPORATE_STRUCTURE, BUSINESS_PLAN, LEASE, DEBT_STACK, BUDGET,
    FINANCE_PLAN, TAX_CREDIT, SCHEDULE, PRESALES]

  const ALLOWED_KEYS: seq<string> :=
    ["category", "required", "description", "min_amount", "max_amount", "document_type", "stage"]

  datatype FormDoc = FormDoc(category: string, required: bool, description: Option<string>, stage: int)

  datatype Error =
    | NotAnArray
    | NotAnObject(index: nat)
    | UnrecognizedKey(index: nat, key: string)
    | MissingCategory(index: nat)
    | NotInList(index: nat, category: string)
    | Duplicate(index: nat, category: string)

  datatype Outcome = Outcome(normalized: seq<FormDoc>, errors: seq<Error>)

  // ---- One item ----

  function KeyErrors(fields: seq<Field>, index: nat): seq<Error> {
    if fields == [] then []
    else
      var last := fields[|fields| - 1];
      KeyErrors(fields[..|fields| - 1], index)
      + if last.name in ALLOWED_KEYS then [] else [UnrecognizedKey(index, last.name)]
  }

  /** `category` first, then `document_type`; empty when neither is a name. */
  function RawLabel(item: Value): string {
    if IsLabel(Get(item, "category")) then Trim(Get(item, "category").s)
    else if IsLabel(Get(item, "document_type")) then Trim(Get(item, "document_type").s)
    else ""
  }

  function Description(item: Value): Option<string> {
    if IsLabel(Get(item, "description")) then Some(Trim(Get(item, "description").s)) else None
  }

  function Stage(item: Value): int {
    if Get(item, "stage") == Number(2.0) || Get(item, "stage") == Text("2") then 2 else 1
  }

  predicate Seen(docs: seq<FormDoc>, category: string) {
    exists i :: 0 <= i < |docs| && docs[i].category == category
  }

  /** What item `index` adds to what has been kept and reported before it. */
  function AfterItem(before: Outcome, item: Value, index: nat): Outcome {
    if !item.Object? then before.(errors := before.errors + [NotAnObject(index)])
    else
      var errors := before.errors + KeyErrors(item.fields, index);
      var name := RawLabel(item);
      if name == "" then before.(errors := errors + [MissingCategory(index)])
      else if name !in FORM_LABELS then before.(errors := errors + [NotInList(index, name)])
      else if Seen(before.normalized, name) then before.(errors := errors + [Duplicate(index, name)])
      else
        var doc := FormDoc(name, Get(item, "required") != Bool(false), Description(item), Stage(item));
        Outcome(before.normalized + [doc], errors)
  }

  function ValidateItems(items: seq<Value>): Outcome {
    if items == [] then Outcome([], [])
    else AfterItem(ValidateItems(items[..|items| - 1]), items[|items| - 1], |items| - 1)
  }

  function Validated(input: Value): Outcome {
    match input
    case Undefined => Outcome([], [])
    case Null => Outcome([], [])
    case Array(items) => ValidateItems(items)
    case _ => Outcome([], [NotAnArray])
  }

  /** The loop of the source, with its three accumulators. */
  method ValidateAndNormalizeRequiredDocuments(input: Value) returns (normalized: seq<FormDoc>, errors: seq<Error>)
    ensures Outcome(normalized, errors) == Validated(input)
  {
    hide RawLabel, Description, Stage, Seen, FORM_LABELS, ALLOWED_KEYS, KeyErrors;
    NothingSeen();
    normalized, errors := [], [];
    if input.Undefined? || input.Null? {
      return;
    }
    if !input.Array? {
      errors := [NotAnArray];
      return;
    }
    var items := input.items;
    var seenLabels: set<string> := {};
    var i := 0;
    while i < |items|
      invariant 0 <= i <= |items|
      invariant Outcome(normalized, errors) == ValidateItems(items[..i])
      invariant forall c :: c in seenLabels <==> Seen(normalized, c)
    {
      var item := items[i];
      ghost var before := Outcome(normalized, errors);
      assert items[..i + 1][..i] == items[..i];
      i := i + 1;
      if !item.Object? {
        errors := errors + [NotAnObject(i - 1)];
        continue;
      }
      errors := CheckKeys(item.fields, i - 1, errors);
      var rawLabel := RawLabel(item);
      if rawLabel == "" {
        errors := errors + [MissingCategory(i - 1)];
        continue;
      }
      if rawLabel !in FORM_LABELS {
        errors := errors + [NotInList(i - 1, rawLabel)];
        continue;
      }
      if rawLabel in seenLabels {
        errors := errors + [Duplicate(i - 1, rawLabel)];
        continue;
      }
      seenLabels := seenLabels + {rawLabel};
      var doc := FormDoc(rawLabel, Get(item, "required") != Bool(false), Description(item), Stage(item));
      SeenSnoc(normalized, doc);
      normalized := normalized + [doc];
    }
    assert items[..i] == items;
  }

  lemma NothingSeen()
    ensures forall c :: !Seen([], c)
  {
  }

  lemma SeenSnoc(docs: seq<FormDoc>, doc: FormDoc)
    ensures forall c :: Seen(docs + [doc], c) <==> Seen(docs, c) || c == doc.category
  {
    forall c
      ensures Seen(docs + [doc], c) <==> Seen(docs, c) || c == doc.category
    {
      assert (docs + [doc])[|docs|] == doc;
      if Seen(docs, c) {
        var i :| 0 <= i < |docs| && docs[i].category == c;
        assert (docs + [doc])[i] == docs[i];
      }
    }
  }

  method CheckKeys(fields: seq<Field>, index: nat, before: seq<Error>) returns (errors: seq<Error>)
    ensures errors == before + KeyErrors(fields, index)
  {
    errors := before;
    var i := 0;
    while i < |fields|
      invariant 0 <= i <= |fields| && errors == before + KeyErrors(fields[..i], index)
    {
      if fields[i].name !in ALLOWED_KEYS {
        errors := errors + [UnrecognizedKey(index, fields[i].name)];
      }
      assert fields[..i + 1][..i] == fields[..i];
      i := i + 1;
    }
    assert fields[..i] == fields;
  }

  // ---- What is kept ----

  predicate GoodDoc(d: FormDoc) {
    && d.category in FORM_LABELS
    && (d.stage == 1 || d.stage == 2)
    && (d.description.Some? ==> d.description.value != "" && Trim(d.description.value) == d.description.value)
  }

  predicate GoodDocs(docs: seq<FormDoc>) {
    && (forall i :: 0 <= i < |docs| ==> GoodDoc(docs[i]))
    && forall i, j :: 0 <= i < j < |docs| ==> docs[i].category != docs[j].category
  }

  lemma DescriptionIsTrimmed(item: Value)
    ensures var d := Description(item);
            d.Some? ==> d.value != "" && Trim(d.value) == d.value
  {
    hide Trim, Get;
    if IsLabel(Get(item, "description")) {
      TrimIsIdempotent(Get(item, "description").s);
    }
  }

  lemma KeepsGood(before: Outcome, item: Value, index: nat)
    requires GoodDocs(before.normalized)
    ensures GoodDocs(AfterItem(before, item, index).normalized)
  {
    hide Trim, RawLabel, Description, KeyErrors, FORM_LABELS, ALLOWED_KEYS, Get;
    DescriptionIsTrimmed(item);
  }

  /** Whatever the input, what is kept has listed, distinct labels and a trimmed description. */
  lemma {:induction false} KeptIsGood(items: seq<Value>)
    ensures GoodDocs(ValidateItems(items).normalized)
  {
    hide GoodDoc, AfterItem;
    if items != [] {
      var k := |items| - 1;
      KeptIsGood(items[..k]);
      KeepsGood(ValidateItems(items[..k]), items[k], k);
    }
  }

  /** No error means: an array of objects with known keys and listed labels, none twice. */
  predicate GoodItem(item: Value) {
    && item.Object? && RawLabel(item) != "" && RawLabel(item) in FORM_LABELS
    && forall i :: 0 <= i < |item.fields| ==> item.fields[i].name in ALLOWED_KEYS
  }

  lemma {:induction false} NoKeyErrors(fields: seq<Field>, index: nat)
    ensures KeyErrors(fields, index) == [] <==> forall i :: 0 <= i < |fields| ==> fields[i].name in ALLOWED_KEYS
  {
    hide ALLOWED_KEYS;
    if fields != [] {
      NoKeyErrors(fields[..|fields| - 1], index);
    }
  }

  predicate GoodItems(items: seq<Value>) {
    && (forall i :: 0 <= i < |items| ==> GoodItem(items[i]))
    && forall i, j :: 0 <= i < j < |items| ==> RawLabel(items[i]) != RawLabel(items[j])
  }

  /** The validator reports nothing exactly when every item is good and no label comes twice; it then keeps them all. */
  lemma {:induction false} NoErrorsMeans(items: seq<Value>)
    ensures ValidateItems(items).errors == [] <==> GoodItems(items)
    ensures GoodItems(items) ==>
              var kept := ValidateItems(items).normalized;
              |kept| == |items| && forall i :: 0 <= i < |items| ==> kept[i] == Normal(items[i])
  {
    hide RawLabel, GoodItem, GoodItems, Normal, AfterItem, Seen;
    if items == [] {
      NothingIsGood();
    } else {
      var k := |items| - 1;
      NoErrorsMeans(items[..k]);
      GoodItemsLast(items);
      var before := ValidateItems(items[..k]);
      CleanItem(before, items[k], k);
      if GoodItems(items[..k]) {
        SeenMeans(items[..k], before.normalized, RawLabel(items[k]));
      }
    }
  }

  lemma NothingIsGood()
    ensures GoodItems([])
  {
  }

  lemma SeenMeans(items: seq<Value>, kept: seq<FormDoc>, name: string)
    requires |kept| == |items| && forall i :: 0 <= i < |items| ==> kept[i] == Normal(items[i])
    ensures Seen(kept, name) <==> exists i :: 0 <= i < |items| && RawLabel(items[i]) == name
  {
    hide RawLabel, Description, Stage;
    assert forall i :: 0 <= i < |items| ==> kept[i].category == RawLabel(items[i]);
  }

  /** An item goes through without an error exactly when it is good and its label is new. */
  lemma CleanItem(before: Outcome, item: Value, k: nat)
    ensures var after := AfterItem(before, item, k);
            && (after.errors == [] <==>
                  before.errors == [] && GoodItem(item) && !Seen(before.normalized, RawLabel(item)))
            && (after.errors == [] ==> after.normalized == before.normalized + [Normal(item)])
  {
    hide RawLabel, Description, Stage, KeyErrors, Seen, FORM_LABELS, ALLOWED_KEYS;
    if item.Object? {
      NoKeyErrors(item.fields, k);
    }
  }

  lemma GoodItemsLast(items: seq<Value>)
    requires items != []
    ensures var k := |items| - 1;
            GoodItems(items) <==> GoodItems(items[..k]) && GoodItem(items[k])
                                  && !exists i :: 0 <= i < k && RawLabel(items[i]) == RawLabel(items[k])
  {
    hide RawLabel, GoodItem;
    var k := |items| - 1;
    assert forall i :: 0 <= i < k ==> items[..k][i] == items[i];
  }

  function Normal(item: Value): FormDoc {
    FormDoc(RawLabel(item), Get(item, "required") != Bool(false), Description(item), Stage(item))
  }

  // ---- Saving and reading back ----

  /** A kept entry as it is saved. */
  function Saved(d: FormDoc): Value {
    Object([Field("category", Text(d.category)), Field("required", Bool(d.required)),
            Field("description", if d.description.Some? then Text(d.description.value) else Null),
            Field("stage", Number(if d.stage == 2 then 2.0 else 1.0))])
  }

  function SavedAll(docs: seq<FormDoc>): (r: seq<Value>)
    ensures |r| == |docs| && forall i :: 0 <= i < |r| ==> r[i] == Saved(docs[i])
  {
    seq(|docs|, i requires 0 <= i < |docs| => Saved(docs[i]))
  }

  /** Every listed label is trimmed and not empty. */
  lemma FormLabelTrimmed(name: string)
    requires name in FORM_LABELS
    ensures name != "" && Trim(name) == name
  {
    hide FORM_LABELS, Trim;
    var i :| 0 <= i < |FORM_LABELS| && FORM_LABELS[i] == name;
    TrimmedFixed(FORM_LABELS[i]);
  }

  lemma LookupTwo(a: Field, rest: seq<Field>, name: string)
    ensures Lookup([a] + rest, name) == if a.name == name then a.value else Lookup(rest, name)
  {
    assert ([a] + rest)[1..] == rest;
  }

  lemma FourFields(f: seq<Field>, names: seq<string>, other: string)
    requires |f| == |names| == 4 && forall i :: 0 <= i < 4 ==> f[i].name == names[i] && names[i] != other
    requires names[0] != names[1] && names[0] != names[2] && names[0] != names[3]
    requires names[1] != names[2] && names[1] != names[3] && names[2] != names[3]
    ensures forall i :: 0 <= i < 4 ==> Lookup(f, names[i]) == f[i].value
    ensures Lookup(f, other) == Undefined
  {
    assert f == [f[0]] + ([f[1]] + ([f[2]] + ([f[3]] + [])));
    forall name
      ensures Lookup(f, name) == if name == names[0] then f[0].value else if name == names[1] then f[1].value
                                 else if name == names[2] then f[2].value else if name == names[3] then f[3].value
                                 else Undefined
    {
      LookupTwo(f[0], [f[1]] + ([f[2]] + ([f[3]] + [])), name);
      LookupTwo(f[1], [f[2]] + ([f[3]] + []), name);
      LookupTwo(f[2], [f[3]] + [], name);
      LookupTwo(f[3], [], name);
    }
  }

  const SAVED_NAMES: seq<string> := ["category", "required", "description", "stage"]

  lemma SavedNames()
    ensures |SAVED_NAMES| == 4
    ensures SAVED_NAMES[0] != SAVED_NAMES[1] && SAVED_NAMES[0] != SAVED_NAMES[2] && SAVED_NAMES[0] != SAVED_NAMES[3]
    ensures SAVED_NAMES[1] != SAVED_NAMES[2] && SAVED_NAMES[1] != SAVED_NAMES[3] && SAVED_NAMES[2] != SAVED_NAMES[3]
    ensures forall i :: 0 <= i < 4 ==>
              SAVED_NAMES[i] != "document_type" && SAVED_NAMES[i] != "min_amount" && SAVED_NAMES[i] != "max_amount"
  {
    assert SAVED_NAMES[0][0] == 'c' && SAVED_NAMES[1][0] == 'r' && SAVED_NAMES[2][1] == 'e' && SAVED_NAMES[3][0] == 's';
    assert "document_type"[1] == 'o' && "min_amount"[0] == 'm' && "max_amount"[0] == 'm';
    assert SAVED_NAMES[2][0] == 'd';
  }

  lemma SavedNamesAllowed()
    ensures |SAVED_NAMES| == 4 && forall i :: 0 <= i < 4 ==> SAVED_NAMES[i] in ALLOWED_KEYS
  {
    assert ALLOWED_KEYS[0] == SAVED_NAMES[0] && ALLOWED_KEYS[1] == SAVED_NAMES[1];
    assert ALLOWED_KEYS[2] == SAVED_NAMES[2] && ALLOWED_KEYS[6] == SAVED_NAMES[3];
  }

  lemma SavedFields(d: FormDoc)
    ensures var v := Saved(d);
            && Get(v, "category") == Text(d.category) && Get(v, "document_type") == Undefined
            && Get(v, "min_amount") == Undefined && Get(v, "max_amount") == Undefined
            && Get(v, "required") == Bool(d.required)
            && Get(v, "description") == (if d.description.Some? then Text(d.description.value) else Null)
            && Get(v, "stage") == Number(if d.stage == 2 then 2.0 else 1.0)
            && forall i :: 0 <= i < |v.fields| ==> v.fields[i].name in ALLOWED_KEYS
  {
    hide Lookup, ALLOWED_KEYS;
    SavedNames();
    SavedNamesAllowed();
    var f := Saved(d).fields;
    assert f[0].name == SAVED_NAMES[0] && f[1].name == SAVED_NAMES[1];
    assert f[2].name == SAVED_NAMES[2] && f[3].name == SAVED_NAMES[3];
    FourFields(f, SAVED_NAMES, "document_type");
    FourFields(f, SAVED_NAMES, "min_amount");
    FourFields(f, SAVED_NAMES, "max_amount");
  }

  lemma SavedNormal(d: FormDoc)
    requires GoodDoc(d)
    ensures GoodItem(Saved(d)) && Normal(Saved(d)) == d
    ensures ItemEntries(Saved(d)) == [Entry(Mention(d.category, d.required), NO_WINDOW)]
  {
    hide Saved, Get, Trim, FORM_LABELS, ALLOWED_KEYS, RawLabel, Description, Stage, IsLabel;
    var v := Saved(d);
    SavedFields(d);
    SavedIsObject(d);
    FormLabelTrimmed(d.category);
    SavedLabel(v, d.category);
    SavedDescription(v, d);
    SavedStage(v, d);
  }

  lemma SavedLabel(v: Value, name: string)
    requires Get(v, "category") == Text(name) && Get(v, "document_type") == Undefined
    requires name != "" && Trim(name) == name
    ensures RawLabel(v) == name && IsLabel(Get(v, "category")) && !IsLabel(Get(v, "document_type")) && !IsLabel(v)
    ensures v.Object?
  {
    hide Trim, Lookup;
  }

  lemma SavedDescription(v: Value, d: FormDoc)
    requires Get(v, "description") == (if d.description.Some? then Text(d.description.value) else Null)
    requires d.description.Some? ==> d.description.value != "" && Trim(d.description.value) == d.description.value
    ensures Description(v) == d.description
  {
    hide Trim, Get;
  }

  lemma SavedStage(v: Value, d: FormDoc)
    requires Get(v, "stage") == Number(if d.stage == 2 then 2.0 else 1.0) && (d.stage == 1 || d.stage == 2)
    ensures Stage(v) == d.stage
  {
    hide Get;
  }

  lemma SavedIsObject(d: FormDoc)
    ensures Saved(d).Object?
  {
  }

  /** Whatever was submitted, what is saved validates to itself without errors. */
  lemma SavedRevalidates(input: Value)
    ensures var docs := Validated(input).normalized;
            Validated(Array(SavedAll(docs))) == Outcome(docs, [])
  {
    hide Saved, Normal, GoodItem, GoodDoc, ValidateItems, RawLabel;
    var docs := Validated(input).normalized;
    assert GoodDocs(docs) by {
      if input.Array? { KeptIsGood(input.items); }
    }
    var items := SavedAll(docs);
    forall i | 0 <= i < |items|
      ensures GoodItem(items[i]) && Normal(items[i]) == docs[i] && RawLabel(items[i]) == docs[i].category
    {
      SavedNormal(docs[i]);
      NormalCategory(items[i]);
    }
    NoErrorsMeans(items);
    assert ValidateItems(items).normalized == docs;
  }

  lemma NormalCategory(item: Value)
    ensures Normal(item).category == RawLabel(item)
  {
  }

  function AsEntries(docs: seq<FormDoc>): (r: seq<Entry>)
    ensures |r| == |docs|
    ensures forall i :: 0 <= i < |r| ==> r[i] == Entry(Mention(docs[i].category, docs[i].required), NO_WINDOW)
  {
    seq(|docs|, i requires 0 <= i < |docs| => Entry(Mention(docs[i].category, docs[i].required), NO_WINDOW))
  }

  lemma GoodDocsLast(docs: seq<FormDoc>)
    requires GoodDocs(docs) && docs != []
    ensures GoodDocs(docs[..|docs| - 1]) && GoodDoc(docs[|docs| - 1])
  {
    hide GoodDoc;
  }

  /** And both required-docs routes read it back as the same labels and flags, in the same order, without a window. */
  lemma SavedIsReadBack(docs: seq<FormDoc>)
    requires GoodDocs(docs)
    ensures Entries(Array(SavedAll(docs))) == AsEntries(docs)
  {
    hide ItemsEntries, GoodDocs, SavedAll, AsEntries;
    SavedItemsAreReadBack(docs);
  }

  lemma {:induction false} SavedItemsAreReadBack(docs: seq<FormDoc>)
    requires GoodDocs(docs)
    ensures ItemsEntries(SavedAll(docs)) == AsEntries(docs)
  {
    hide Saved, GoodDoc, GoodDocs, ItemsEntries, ItemEntries, FORM_LABELS;
    if docs == [] {
      NothingSaved();
    } else {
      var k := |docs| - 1;
      GoodDocsLast(docs);
      SavedItemsAreReadBack(docs[..k]);
      SavedNormal(docs[k]);
      SavedLast(docs);
    }
  }

  lemma NothingSaved()
    ensures ItemsEntries(SavedAll([])) == AsEntries([])
  {
    NothingMentioned();
    assert SavedAll([]) == [] && AsEntries([]) == [];
  }

  lemma SavedLast(docs: seq<FormDoc>)
    requires docs != []
    ensures var k := |docs| - 1;
            && ItemsEntries(SavedAll(docs)) == ItemsEntries(SavedAll(docs[..k])) + ItemEntries(Saved(docs[k]))
            && AsEntries(docs) == AsEntries(docs[..k]) + [Entry(Mention(docs[k].category, docs[k].required), NO_WINDOW)]
  {
    hide Saved, ItemsEntries, ItemEntries, FORM_LABELS, Entries;
    var k, items := |docs| - 1, SavedAll(docs);
    ItemsSnoc(items, k);
    assert items[..k] == SavedAll(docs[..k]);
    assert items[..k + 1] == items;
  }
}
