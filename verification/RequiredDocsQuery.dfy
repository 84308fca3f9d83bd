/**
 The parameterised WHERE clauses that the wizard route (src/routes/lenderProductsRequiredDocs.ts) and the staff preview
 (src/routes/lenderProductsRequiredDocsPreview.ts) build over whatever columns `lender_products` has.
 */
module RequiredDocsQuery {
  import opened Options
  import opened JsStrings

  /** A row of `lender_products`; a column that is absent from a map is NULL. */
  datatype Row = Row(active: bool, texts: map<string, string>, nums: map<string, real>)

  datatype Param = PText(s: string) | PNum(n: real)

  /** The clause shapes that are pushed; `k` is the number in `$k`, counted from 1. */
  datatype Clause =
    | IsTrue                                                        // active IS TRUE
    | NullOrEquals(column: string, literal: string)                 // c IS NULL OR c = 'literal'
    | NullOrUpper(column: string, k: nat)                           // c IS NULL OR upper(c) = $k
    | NullOrUpperOr(column: string, k: nat, literal: string)        // … OR upper(c) = 'literal'
    | NullOrLower(column: string, k: nat)                           // c IS NULL OR lower(c) = $k
    | NullOrAtMost(column: string, k: nat)                          // c IS NULL OR c <= $k
    | NullOrAtLeast(column: string, k: nat)                         // c IS NULL OR c >= $k
    | NullOrLike(column: string, k: nat)                            // c IS NULL OR c ILIKE '%' || $k || '%'

  /** `ILIKE`, from the text and the needle. */
  type Like = (string, string) -> bool

  function ParamNumber(c: Clause): nat {
    match c
    case IsTrue => 0
    case NullOrEquals(_, _) => 0
    case _ => c.k
  }

  predicate TextParam(params: seq<Param>, k: nat, s: string) {
    0 < k <= |params| && params[k - 1] == PText(s)
  }

  /** What PostgreSQL makes of a clause when `$k` is the k-th parameter. */
  predicate Eval(c: Clause, params: seq<Param>, row: Row, like: Like) {
    match c
    case IsTrue => row.active
    case NullOrEquals(col, literal) => col in row.texts ==> row.texts[col] == literal
    case NullOrUpper(col, k) => col in row.texts ==> TextParam(params, k, Upper(row.texts[col]))
    case NullOrUpperOr(col, k, literal) =>
      col in row.texts ==> TextParam(params, k, Upper(row.texts[col])) || Upper(row.texts[col]) == literal
    case NullOrLower(col, k) => col in row.texts ==> TextParam(params, k, Lower(row.texts[col]))
    case NullOrAtMost(col, k) =>
      col in row.nums ==> 0 < k <= |params| && params[k - 1].PNum? && row.nums[col] <= params[k - 1].n
    case NullOrAtLeast(col, k) =>
      col in row.nums ==> 0 < k <= |params| && params[k - 1].PNum? && row.nums[col] >= params[k - 1].n
    case NullOrLike(col, k) =>
      col in row.texts ==> 0 < k <= |params| && params[k - 1].PText? && like(row.texts[col], params[k - 1].s)
  }

  /** `WHERE c1 AND c2 AND …` */
  predicate EvalAll(where: seq<Clause>, params: seq<Param>, row: Row, like: Like) {
    where != [] ==> EvalAll(where[..|where| - 1], params, row, like) && Eval(where[|where| - 1], params, row, like)
  }

  predicate Numbered(where: seq<Clause>, n: nat) {
    forall i :: 0 <= i < |where| ==> ParamNumber(where[i]) <= n
  }

  /** Pushing more parameters does not change what the earlier clauses mean. */
  lemma {:induction false} EarlierClausesKeep(where: seq<Clause>, params: seq<Param>, p: Param, row: Row, like: Like)
    requires Numbered(where, |params|)
    ensures EvalAll(where, params + [p], row, like) == EvalAll(where, params, row, like)
  {
    if where != [] {
      EarlierClausesKeep(where[..|where| - 1], params, p, row, like);
      var c := where[|where| - 1];
      var k := ParamNumber(c);
      assert k > 0 ==> (params + [p])[k - 1] == params[k - 1];
    }
  }

  /** A query under construction, that so far selects the rows satisfying `selects`. */
  ghost predicate Builds(where: seq<Clause>, params: seq<Param>, like: Like, selects: Row -> bool) {
    Numbered(where, |params|) && forall row :: EvalAll(where, params, row, like) == selects(row)
  }

  lemma PushClause(where: seq<Clause>, params: seq<Param>, like: Like, selects: Row -> bool, c: Clause)
    requires Builds(where, params, like, selects) && ParamNumber(c) == 0
    ensures Builds(where + [c], params, like, AndClause(selects, c, [], like))
  {
    hide Eval;
    forall row: Row
      ensures EvalAll(where + [c], params, row, like) == (selects(row) && Eval(c, [], row, like))
    {
      assert (where + [c])[..|where|] == where;
      assert Eval(c, params, row, like) == Eval(c, [], row, like) by { NoParameter(c, params, row, like); }
    }
  }

  lemma NoParameter(c: Clause, params: seq<Param>, row: Row, like: Like)
    requires ParamNumber(c) == 0
    ensures Eval(c, params, row, like) == Eval(c, [], row, like)
  {
  }

  /** `params.push(p); where.push(… $${params.length} …)`: the clause reads the parameter just pushed. */
  lemma PushBoth(where: seq<Clause>, params: seq<Param>, like: Like, selects: Row -> bool, c: Clause, p: Param)
    requires Builds(where, params, like, selects) && ParamNumber(c) == |params| + 1
    ensures Builds(where + [c], params + [p], like, AndClause(selects, c, params + [p], like))
  {
    hide Eval;
    forall row: Row
      ensures EvalAll(where + [c], params + [p], row, like) == (selects(row) && Eval(c, params + [p], row, like))
    {
      assert (where + [c])[..|where|] == where;
      EarlierClausesKeep(where, params, p, row, like);
    }
  }

  // ---- What the two routes mean to select ----

  const CATEGORY_CODES: map<string, string> := map[
    "LINE_OF_CREDIT" := "LOC", "STANDARD" := "LOC", "TERM_LOAN" := "TERM", "PURCHASE_ORDER" := "PO",
    "PURCHASE_ORDER_FINANCE" := "PO", "EQUIPMENT_FINANCE" := "EQUIPMENT", "EQUIPMENT_FINANCING" := "EQUIPMENT",
    "MERCHANT_CASH_ADVANCE" := "MCA", "MEDIA_FUNDING" := "MEDIA", "ASSET_BASED_LENDING" := "ABL",
    "SBA_GOVERNMENT" := "SBA", "STARTUP_CAPITAL" := "STARTUP"]

  /** `normalizeProductCategoryForFilter`, the same in both files. */
  function NormalizeCategory(value: string): string {
    var raw := Upper(Trim(value));
    if raw in CATEGORY_CODES then CATEGORY_CODES[raw] else raw
  }

  function MinColumn(cols: set<string>): Option<string> {
    if "amount_min" in cols then Some("amount_min") else if "min_amount" in cols then Some("min_amount") else None
  }

  function MaxColumn(cols: set<string>): Option<string> {
    if "amount_max" in cols then Some("amount_max") else if "max_amount" in cols then Some("max_amount") else None
  }

  predicate IsLive(cols: set<string>, row: Row) {
    && ("active" in cols ==> row.active)
    && ("status" in cols && "status" in row.texts ==> row.texts["status"] == "active")
  }

  predicate AtLeastMin(cols: set<string>, amount: Option<real>, row: Row) {
    amount.Some? && MinColumn(cols).Some? && MinColumn(cols).value in row.nums
    ==> row.nums[MinColumn(cols).value] <= amount.value
  }

  predicate AtMostMax(cols: set<string>, amount: Option<real>, row: Row) {
    amount.Some? && MaxColumn(cols).Some? && MaxColumn(cols).value in row.nums
    ==> row.nums[MaxColumn(cols).value] >= amount.value
  }

  predicate TakesAmount(cols: set<string>, amount: Option<real>, row: Row) {
    AtLeastMin(cols, amount, row) && AtMostMax(cols, amount, row)
  }

  predicate FitsCategory(cols: set<string>, category: string, row: Row) {
    category != "" && "category" in cols && "category" in row.texts ==> Lower(row.texts["category"]) == category
  }

  /** A product for both countries fits any country. */
  predicate FitsCountryOrBoth(cols: set<string>, country: string, row: Row) {
    country != "" && "country" in cols && "country" in row.texts
    ==> Upper(row.texts["country"]) == country || Upper(row.texts["country"]) == "BOTH"
  }

  predicate FitsCountry(cols: set<string>, country: string, row: Row) {
    country != "" && "country" in cols && "country" in row.texts ==> Upper(row.texts["country"]) == country
  }

  predicate PreviewSelects(cols: set<string>, country: string, category: string, amount: Option<real>, row: Row) {
    && IsLive(cols, row) && FitsCountryOrBoth(cols, Upper(country), row)
    && FitsCategory(cols, Lower(NormalizeCategory(category)), row) && TakesAmount(cols, amount, row)
  }

  /** The wizard's inputs as it has read them from the query string. */
  datatype WizardInput = WizardInput(country: string, category: string, amount: Option<real>, industry: string,
                                     revenue: Option<real>, years: Option<real>)

  predicate WizardSelects(cols: set<string>, q: WizardInput, row: Row, like: Like) {
    && IsLive(cols, row) && FitsCountry(cols, q.country, row)
    && FitsCategory(cols, q.category, row) && TakesAmount(cols, q.amount, row)
    && FitsExtras(cols, q, row, like)
  }

  predicate FitsExtras(cols: set<string>, q: WizardInput, row: Row, like: Like) {
    && FitsIndustry(cols, q.industry, row, like)
    && HasAtLeast(cols, "min_years_in_business", q.years, row)
    && HasAtLeast(cols, "min_revenue", q.revenue, row)
  }

  predicate FitsIndustry(cols: set<string>, industry: string, row: Row, like: Like) {
    industry != "" && "industries" in cols && "industries" in row.texts ==> like(row.texts["industries"], industry)
  }

  predicate HasAtLeast(cols: set<string>, column: string, value: Option<real>, row: Row) {
    value.Some? && column in cols && column in row.nums ==> row.nums[column] <= value.value
  }

  // ---- The two builders ----

  /** One parameter and its clause, when `wanted`. */
  method PushWhen(wanted: bool, where: seq<Clause>, params: seq<Param>, c: Clause, p: Param,
                  ghost like: Like, ghost selects: Row -> bool, ghost more: Row -> bool)
    returns (where': seq<Clause>, params': seq<Param>)
    requires Builds(where, params, like, selects) && ParamNumber(c) == |params| + 1
    requires forall row :: more(row) == (wanted ==> Eval(c, params + [p], row, like))
    ensures |params'| == |params| + if wanted then 1 else 0
    ensures Builds(where', params', like, row => selects(row) && more(row))
  {
    hide EvalAll;
    if wanted {
      PushBoth(where, params, like, selects, c, p);
      where', params' := where + [c], params + [p];
    } else {
      where', params' := where, params;
    }
  }

  ghost function AndClause(selects: Row -> bool, c: Clause, params: seq<Param>, like: Like): Row -> bool {
    row => selects(row) && Eval(c, params, row, like)
  }

  lemma SameSelection(where: seq<Clause>, params: seq<Param>, like: Like, selects: Row -> bool, selects': Row -> bool)
    requires Builds(where, params, like, selects) && forall row :: selects(row) == selects'(row)
    ensures Builds(where, params, like, selects')
  {
  }

  /** The two clauses without a parameter, alike in both routes. */
  method LiveClauses(cols: set<string>, ghost like: Like) returns (where: seq<Clause>)
    ensures Builds(where, [], like, row => IsLive(cols, row))
  {
    hide EvalAll;
    where := [];
    ghost var s0: Row -> bool := row => true;
    assert Builds([], [], like, s0) by { NothingBuilt(like); }
    ghost var m1: Row -> bool := (row: Row) => "active" in cols ==> row.active;
    where := PushLiteralWhen("active" in cols, where, IsTrue, like, s0, m1);
    ghost var s1: Row -> bool := row => s0(row) && m1(row);
    ghost var m2: Row -> bool :=
      (row: Row) => "status" in cols && "status" in row.texts ==> row.texts["status"] == "active";
    where := PushLiteralWhen("status" in cols, where, NullOrEquals("status", "active"), like, s1, m2);
    SameSelection(where, [], like, row => s1(row) && m2(row), row => IsLive(cols, row));
  }

  method PushLiteralWhen(wanted: bool, where: seq<Clause>, c: Clause,
                         ghost like: Like, ghost selects: Row -> bool, ghost more: Row -> bool)
    returns (where': seq<Clause>)
    requires Builds(where, [], like, selects) && ParamNumber(c) == 0
    requires forall row :: more(row) == (wanted ==> Eval(c, [], row, like))
    ensures Builds(where', [], like, row => selects(row) && more(row))
  {
    hide EvalAll;
    if wanted {
      PushClause(where, [], like, selects, c);
      where' := where + [c];
    } else {
      where' := where;
    }
  }

  lemma NothingBuilt(like: Like)
    ensures Builds([], [], like, row => true)
  {
  }

  /** The amount clauses, alike in both routes. */
  method AmountClauses(cols: set<string>, amount: Option<real>, where: seq<Clause>, params: seq<Param>,
                       ghost like: Like, ghost selects: Row -> bool)
    returns (where': seq<Clause>, params': seq<Param>)
    requires Builds(where, params, like, selects)
    ensures Builds(where', params', like, row => selects(row) && TakesAmount(cols, amount, row))
  {
    hide EvalAll;
    var minCol, maxCol := MinColumn(cols), MaxColumn(cols);
    var n := PNum(if amount.Some? then amount.value else 0.0);
    ghost var m1: Row -> bool := row => AtLeastMin(cols, amount, row);
    where', params' := PushWhen(amount.Some? && minCol.Some?, where, params,
                                NullOrAtMost(if minCol.Some? then minCol.value else "", |params| + 1), n,
                                like, selects, m1);
    ghost var s1: Row -> bool := row => selects(row) && m1(row);
    ghost var m2: Row -> bool := row => AtMostMax(cols, amount, row);
    where', params' := PushWhen(amount.Some? && maxCol.Some?, where', params',
                                NullOrAtLeast(if maxCol.Some? then maxCol.value else "", |params'| + 1), n,
                                like, s1, m2);
    SameSelection(where', params', like, row => s1(row) && m2(row),
                  row => selects(row) && TakesAmount(cols, amount, row));
  }

  /** `queryProductsForLeg`: whatever columns exist, the clauses with their parameters select the intended rows. */
  method BuildPreviewQuery(cols: set<string>, country: string, category: string, amount: Option<real>, ghost like: Like)
    returns (where: seq<Clause>, params: seq<Param>)
    ensures Builds(where, params, like, row => PreviewSelects(cols, country, category, amount, row))
  {
    hide EvalAll, NormalizeCategory, TakesAmount, IsLive;
    where := LiveClauses(cols, like);
    params := [];
    ghost var s0: Row -> bool := row => IsLive(cols, row);
    ghost var m1: Row -> bool := row => FitsCountryOrBoth(cols, Upper(country), row);
    where, params := PushWhen(country != "" && "country" in cols, where, params,
                              NullOrUpperOr("country", |params| + 1, "BOTH"), PText(Upper(country)), like, s0, m1);
    var normalizedCategory := NormalizeCategory(category);
    ghost var s1: Row -> bool := row => s0(row) && m1(row);
    ghost var m2: Row -> bool := row => FitsCategory(cols, Lower(normalizedCategory), row);
    where, params := PushWhen(normalizedCategory != "" && "category" in cols, where, params,
                              NullOrLower("category", |params| + 1), PText(Lower(normalizedCategory)), like, s1, m2);
    ghost var s2: Row -> bool := row => s1(row) && m2(row);
    where, params := AmountClauses(cols, amount, where, params, like, s2);
    SameSelection(where, params, like, row => s2(row) && TakesAmount(cols, amount, row),
                  row => PreviewSelects(cols, country, category, amount, row));
  }

  /** The wizard route's builder. */
  method BuildWizardQuery(cols: set<string>, q: WizardInput, ghost like: Like)
    returns (where: seq<Clause>, params: seq<Param>)
    ensures Builds(where, params, like, row => WizardSelects(cols, q, row, like))
  {
    hide EvalAll, TakesAmount, IsLive, FitsExtras;
    where := LiveClauses(cols, like);
    params := [];
    ghost var s0: Row -> bool := row => IsLive(cols, row);
    ghost var m1: Row -> bool := row => FitsCountry(cols, q.country, row);
    where, params := PushWhen(q.country != "" && "country" in cols, where, params,
                              NullOrUpper("country", |params| + 1), PText(q.country), like, s0, m1);
    ghost var s1: Row -> bool := row => s0(row) && m1(row);
    ghost var m2: Row -> bool := row => FitsCategory(cols, q.category, row);
    where, params := PushWhen(q.category != "" && "category" in cols, where, params,
                              NullOrLower("category", |params| + 1), PText(q.category), like, s1, m2);
    ghost var s2: Row -> bool := row => s1(row) && m2(row);
    where, params := AmountClauses(cols, q.amount, where, params, like, s2);
    ghost var s3: Row -> bool := row => s2(row) && TakesAmount(cols, q.amount, row);
    where, params := ExtraClauses(cols, q, where, params, like, s3);
    SameSelection(where, params, like, row => s3(row) && FitsExtras(cols, q, row, like),
                  row => WizardSelects(cols, q, row, like));
  }

  /** The wizard's industry, years-in-business and revenue clauses. */
  method ExtraClauses(cols: set<string>, q: WizardInput, where: seq<Clause>, params: seq<Param>,
                      ghost like: Like, ghost selects: Row -> bool)
    returns (where': seq<Clause>, params': seq<Param>)
    requires Builds(where, params, like, selects)
    ensures Builds(where', params', like, row => selects(row) && FitsExtras(cols, q, row, like))
  {
    hide EvalAll;
    ghost var m1: Row -> bool := row => FitsIndustry(cols, q.industry, row, like);
    where', params' := PushWhen(q.industry != "" && "industries" in cols, where, params,
                                NullOrLike("industries", |params| + 1), PText(q.industry), like, selects, m1);
    ghost var s1: Row -> bool := row => selects(row) && m1(row);
    ghost var m2: Row -> bool := row => HasAtLeast(cols, "min_years_in_business", q.years, row);
    where', params' := PushWhen(q.years.Some? && "min_years_in_business" in cols, where', params',
                                NullOrAtMost("min_years_in_business", |params'| + 1),
                                PNum(if q.years.Some? then q.years.value else 0.0), like, s1, m2);
    ghost var s2: Row -> bool := row => s1(row) && m2(row);
    ghost var m3: Row -> bool := row => HasAtLeast(cols, "min_revenue", q.revenue, row);
    where', params' := PushWhen(q.revenue.Some? && "min_revenue" in cols, where', params',
                                NullOrAtMost("min_revenue", |params'| + 1),
                                PNum(if q.revenue.Some? then q.revenue.value else 0.0), like, s2, m3);
    SameSelection(where', params', like, row => s2(row) && m3(row),
                  row => selects(row) && FitsExtras(cols, q, row, like));
  }

  // ---- Wizard and preview ----

  /** `String(req.query.country ?? "").toUpperCase().slice(0, 2)` */
  function WizardCountry(raw: string): string {
    if |raw| <= 2 then Upper(raw) else Upper(raw)[..2]
  }

  /** `body.country.trim().toUpperCase()`, empty for `null`. */
  function PreviewCountry(raw: string): string {
    Upper(Trim(raw))
  }

  lemma UpperTwice(s: string)
    ensures Upper(Upper(s)) == Upper(s)
  {
  }

  lemma TwoLetters(raw: string)
    requires |raw| == 2 && !IsSpace(raw[0]) && !IsSpace(raw[1])
    ensures Upper(PreviewCountry(raw)) == PreviewCountry(raw) == WizardCountry(raw) && |WizardCountry(raw)| == 2
  {
    TrimmedFixed(raw);
    UpperTwice(Trim(raw));
  }

  /**
   For a two-letter country, a category and a positive amount and no further filter, the wizard selects exactly the
   rows that the preview selects, minus those whose country is BOTH.
   */
  lemma WizardIsPreviewWithoutBoth(cols: set<string>, country: string, category: string, amount: real, row: Row,
                                   like: Like)
    requires |country| == 2 && !IsSpace(country[0]) && !IsSpace(country[1])
    ensures var q := WizardInput(WizardCountry(country), Lower(NormalizeCategory(category)), Some(amount), "", None,
                                 None);
            var both := "country" in cols && "country" in row.texts && Upper(row.texts["country"]) == "BOTH";
            WizardSelects(cols, q, row, like) <==>
            PreviewSelects(cols, PreviewCountry(country), Trim(category), Some(amount), row) && !both
  {
    hide TakesAmount, IsLive, FitsCategory, FitsCountry, FitsCountryOrBoth, FitsExtras, NormalizeCategory, Lower, Upper,
      WizardCountry, PreviewCountry, Trim;
    TwoLetters(country);
    CountryWithoutBoth(cols, WizardCountry(country), row);
    assert NormalizeCategory(Trim(category)) == NormalizeCategory(category) by { TrimmedCategory(category); }
    NoExtras(cols, WizardCountry(country), Lower(NormalizeCategory(category)), Some(amount), row, like);
  }

  lemma CountryWithoutBoth(cols: set<string>, country: string, row: Row)
    requires |country| == 2
    ensures FitsCountry(cols, country, row) <==>
            && FitsCountryOrBoth(cols, country, row)
            && !("country" in cols && "country" in row.texts && Upper(row.texts["country"]) == "BOTH")
  {
    assert |"BOTH"| == 4;
  }

  lemma TrimmedCategory(category: string)
    ensures NormalizeCategory(Trim(category)) == NormalizeCategory(category)
  {
    hide TrimStart, TrimEnd;
    TrimIsIdempotent(category);
  }

  lemma NoExtras(cols: set<string>, country: string, category: string, amount: Option<real>, row: Row, like: Like)
    ensures FitsExtras(cols, WizardInput(country, category, amount, "", None, None), row, like)
  {
  }

  // ---- What is selected, column by column ----

  /**
   On a table with the current columns, and a row that has them all, the preview selects exactly the live products of
   the country (or of both), of the category, with the amount in their range.
   */
  lemma PreviewMeans(cols: set<string>, country: string, category: string, amount: real, row: Row)
    requires cols >= {"active", "status", "country", "category", "amount_min", "amount_max"}
    requires "status" in row.texts && "country" in row.texts && "category" in row.texts
    requires "amount_min" in row.nums && "amount_max" in row.nums
    ensures PreviewSelects(cols, country, category, Some(amount), row) <==>
            && row.active && row.texts["status"] == "active"
            && (country == "" || Upper(row.texts["country"]) == Upper(country) || Upper(row.texts["country"]) == "BOTH")
            && (NormalizeCategory(category) == "" ||
                Lower(row.texts["category"]) == Lower(NormalizeCategory(category)))
            && row.nums["amount_min"] <= amount <= row.nums["amount_max"]
  {
    hide NormalizeCategory;
  }

  /** On a table with the older names of the amount columns, those are compared. */
  lemma OlderColumnsCount(cols: set<string>, amount: real, row: Row)
    requires "amount_min" !in cols && "amount_max" !in cols && cols >= {"min_amount", "max_amount"}
    requires "min_amount" in row.nums && "max_amount" in row.nums
    ensures TakesAmount(cols, Some(amount), row) <==> row.nums["min_amount"] <= amount <= row.nums["max_amount"]
  {
  }

  /** What is NULL, or has no column, excludes nothing. */
  lemma NothingExcludesNothing(cols: set<string>, country: string, category: string, amount: Option<real>, row: Row)
    requires "active" in cols ==> row.active
    requires row.texts == map[] && row.nums == map[]
    ensures PreviewSelects(cols, country, category, amount, row)
  {
    hide NormalizeCategory;
  }

  /** Where nothing is asked for, every live product is selected, in both routes. */
  lemma NothingAskedNothingExcluded(cols: set<string>, row: Row, like: Like)
    ensures PreviewSelects(cols, "", "", None, row) == WizardSelects(cols, WizardInput("", "", None, "", None, None),
                                                                     row, like)
    ensures PreviewSelects(cols, "", "", None, row) <==>
            && ("active" in cols ==> row.active)
            && ("status" in cols && "status" in row.texts ==> row.texts["status"] == "active")
  {
    NothingNormalizes();
  }

  lemma NothingNormalizes()
    ensures NormalizeCategory("") == ""
  {
  }

  /** The wizard takes the first two letters, in upper case, whatever is sent. */
  lemma WizardCountryIs(raw: string)
    ensures WizardCountry(raw) == Upper(if |raw| <= 2 then raw else raw[..2])
    ensures |WizardCountry(raw)| <= 2
  {
  }

  /** The wizard likewise, without products for both countries, and with its three further columns. */
  lemma WizardMeans(cols: set<string>, q: WizardInput, row: Row, like: Like)
    requires cols >= {"active", "status", "country", "category", "amount_min", "amount_max", "industries",
                      "min_years_in_business", "min_revenue"}
    requires "status" in row.texts && "country" in row.texts && "category" in row.texts && "industries" in row.texts
    requires "amount_min" in row.nums && "amount_max" in row.nums
    requires "min_years_in_business" in row.nums && "min_revenue" in row.nums
    requires q.country != "" && q.category != "" && q.industry != ""
    requires q.amount.Some? && q.years.Some? && q.revenue.Some?
    ensures WizardSelects(cols, q, row, like) <==>
            && row.active && row.texts["status"] == "active"
            && Upper(row.texts["country"]) == q.country && Lower(row.texts["category"]) == q.category
            && row.nums["amount_min"] <= q.amount.value <= row.nums["amount_max"]
            && like(row.texts["industries"], q.industry)
            && row.nums["min_years_in_business"] <= q.years.value && row.nums["min_revenue"] <= q.revenue.value
  {
  }

  /** Case and outer blanks of a category do not matter. */
  lemma CategoryCaseIsIrrelevant(category: string)
    ensures NormalizeCategory(Upper(Trim(category))) == NormalizeCategory(category)
    ensures NormalizeCategory(Upper(category)) == NormalizeCategory(category)
  {
    hide CATEGORY_CODES;
    UpperKeepsTrim(category);
    UpperTwice(Trim(category));
    TrimIsIdempotent(category);
    UpperKeepsTrim(Trim(category));
    UpperTwice(category);
  }

  lemma UpperKeepsTrim(s: string)
    ensures Trim(Upper(s)) == Upper(Trim(s))
  {
    hide TrimStart, TrimEnd;
    UpperKeepsTrimStart(s);
    UpperKeepsTrimEnd(TrimStart(s));
  }

  lemma {:induction false} UpperKeepsTrimStart(s: string)
    ensures TrimStart(Upper(s)) == Upper(TrimStart(s))
  {
    if s != "" && IsSpace(s[0]) {
      assert Upper(s)[1..] == Upper(s[1..]);
      UpperKeepsTrimStart(s[1..]);
    }
  }

  lemma {:induction false} UpperKeepsTrimEnd(s: string)
    ensures TrimEnd(Upper(s)) == Upper(TrimEnd(s))
  {
    if s != "" && IsSpace(s[|s| - 1]) {
      assert Upper(s)[..|s| - 1] == Upper(s[..|s| - 1]);
      UpperKeepsTrimEnd(s[..|s| - 1]);
    }
  }
}
