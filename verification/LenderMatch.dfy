/**
 The lender matcher of src/ai/lenderMatchEngine.ts with the scores of src/ai/scoringEngine.ts, in exact arithmetic.
 Case mapping is that of ASCII letters.
 */
module LenderMatch {
  import opened Options
  import opened JsStrings
  import opened Sorting

  datatype ProductRow = ProductRow(id: string, country: Option<string>, category: Option<string>,
                                   minAmount: Option<real>, maxAmount: Option<real>)

  datatype PrequalInput = PrequalInput(requestedAmount: Option<real>, country: Option<string>, category: Option<string>,
                                       timeInBusiness: Option<real>, revenue: Option<real>)

  /** A number that is neither missing nor zero. */
  predicate Truthy(n: Option<real>) {
    n.Some? && n.value != 0.0
  }

  // ---- scoringEngine.ts ----

  function Max(x: real, y: real): real {
    if x < y then y else x
  }

  function Min(x: real, y: real): real {
    if y < x then y else x
  }

  function Abs(x: real): real {
    if x < 0.0 then -x else x
  }

  function ScoreAmountFit(requested: Option<real>, min: Option<real>, max: Option<real>): real {
    if !Truthy(requested) || requested.value <= 0.0 then 0.4
    else if Truthy(min) && requested.value < min.value then 0.0
    else if Truthy(max) && requested.value > max.value then 0.0
    else if Truthy(min) && Truthy(max) && max.value > min.value then
      var midpoint := (min.value + max.value) / 2.0;
      var distance := Abs(requested.value - midpoint) / (max.value - min.value);
      Max(0.2, 1.0 - distance)
    else 0.8
  }

  /** `Math.round`: the nearest integer, halves up. */
  function Round(x: real): int {
    (x + 0.5).Floor
  }

  function NormalizeToPercent(value: real): int {
    Round(Max(0.0, Min(1.0, value)) * 100.0)
  }

  // ---- lenderMatchEngine.ts: filter ----

  predicate GeographyAllows(productCountry: Option<string>, applicantCountry: Option<string>) {
    || productCountry.None? || productCountry.value == "" || productCountry.value == "BOTH"
    || applicantCountry.None? || applicantCountry.value == ""
    || productCountry == applicantCountry
  }

  /** The two amount lines of the filter. */
  predicate AmountAllows(requested: Option<real>, min: Option<real>, max: Option<real>) {
    && !(Truthy(requested) && Truthy(min) && requested.value < min.value)
    && !(Truthy(requested) && Truthy(max) && requested.value > max.value)
  }

  predicate IsSeparator(c: char) {
    IsSpace(c) || c == '-' || c == '/'
  }

  predicate IsUnderscore(c: char) {
    c == '_'
  }

  /** `.trim().toUpperCase().replace(/[\s\-/]+/g, "_").replace(/__+/g, "_")` */
  function Normalized(raw: string): string {
    ReplaceRuns(ReplaceRuns(Upper(Trim(raw)), IsSeparator, '_', false), IsUnderscore, '_', false)
  }

  predicate IsClean(s: string) {
    forall k :: 0 <= k < |s| ==> !IsSeparator(s[k]) && UpperChar(s[k]) == s[k]
  }

  /** What normalization leaves alone: no separator, no lower-case letter, no two underscores in a row. */
  predicate IsNormal(s: string) {
    && IsClean(s)
    && forall k :: 0 <= k < |s| - 1 ==> !(s[k] == '_' && s[k + 1] == '_')
  }

  type BucketId = s: string | IsNormal(s) witness "LOC"

  const LINE_OF_CREDIT: BucketId := "LINE_OF_CREDIT"
  const TERM_LOAN: BucketId := "TERM_LOAN"
  const EQUIPMENT_FINANCE: BucketId := "EQUIPMENT_FINANCE"
  const FACTORING: BucketId := "FACTORING"
  const PURCHASE_ORDER_FINANCE: BucketId := "PURCHASE_ORDER_FINANCE"
  const MERCHANT_CASH_ADVANCE: BucketId := "MERCHANT_CASH_ADVANCE"
  const MEDIA: BucketId := "MEDIA"
  const ASSET_BASED_LENDING: BucketId := "ASSET_BASED_LENDING"
  const SBA_GOVERNMENT: BucketId := "SBA_GOVERNMENT"
  const STARTUP_CAPITAL: BucketId := "STARTUP_CAPITAL"

  /** The alias table; each bucket is listed under its own name. */
  function Bucket(name: string): string {
    if name == "LOC" || name == LINE_OF_CREDIT then LINE_OF_CREDIT
    else if name == "TERM" || name == TERM_LOAN || name == "WORKING_CAPITAL" then TERM_LOAN
    else if name == "EQUIPMENT" || name == EQUIPMENT_FINANCE || name == "EQUIPMENT_FINANCING" then EQUIPMENT_FINANCE
    else if name == FACTORING || name == "INVOICE_FACTORING" then FACTORING
    else if name == "PO" || name == "PURCHASE_ORDER" || name == PURCHASE_ORDER_FINANCE
            || name == "PURCHASE_ORDER_FINANCING" then PURCHASE_ORDER_FINANCE
    else if name == "MCA" || name == MERCHANT_CASH_ADVANCE then MERCHANT_CASH_ADVANCE
    else if name == MEDIA || name == "MEDIA_FUNDING" then MEDIA
    else if name == "ABL" || name == ASSET_BASED_LENDING then ASSET_BASED_LENDING
    else if name == "SBA" || name == SBA_GOVERNMENT then SBA_GOVERNMENT
    else if name == "STARTUP" || name == STARTUP_CAPITAL then STARTUP_CAPITAL
    else name
  }

  function ToBucketId(raw: Option<string>): Option<string> {
    if raw.None? || Normalized(raw.value) == "" then None else Some(Bucket(Normalized(raw.value)))
  }

  predicate Passes(row: ProductRow, input: PrequalInput) {
    && GeographyAllows(row.country, input.country)
    && AmountAllows(input.requestedAmount, row.minAmount, row.maxAmount)
    && (ToBucketId(input.category).Some? ==> ToBucketId(row.category) == ToBucketId(input.category))
  }

  // ---- Score, sort ----

  datatype LenderMatch = LenderMatch(row: ProductRow, matchPercent: int)

  function Score(row: ProductRow, input: PrequalInput): LenderMatch {
    var amountScore := ScoreAmountFit(input.requestedAmount, row.minAmount, row.maxAmount);
    var maturityScore := if Truthy(input.timeInBusiness) && input.timeInBusiness.value >= 24.0 then 0.9 else 0.65;
    var revenueScore := if Truthy(input.revenue) && input.revenue.value >= 120000.0 then 0.9 else 0.6;
    LenderMatch(row, NormalizeToPercent(amountScore * 0.5 + maturityScore * 0.25 + revenueScore * 0.25))
  }

  const BY_PERCENT: (LenderMatch, LenderMatch) -> bool :=
    (x: LenderMatch, y: LenderMatch) => x.matchPercent >= y.matchPercent

  function Scored(rows: seq<ProductRow>, input: PrequalInput): seq<LenderMatch> {
    if rows == [] then []
    else (if Passes(rows[0], input) then [Score(rows[0], input)] else []) + Scored(rows[1..], input)
  }

  function MatchLenders(rows: seq<ProductRow>, input: PrequalInput): seq<LenderMatch> {
    Sort(Scored(rows, input), BY_PERCENT)
  }

  // ---- Scores ----

  /** For a positive request: the filter rejects a row exactly when its score is 0, and otherwise it is at least 0.5. */
  lemma FilterIsScoreZero(requested: Option<real>, min: Option<real>, max: Option<real>)
    requires requested.Some? && requested.value > 0.0
    ensures AmountAllows(requested, min, max) <==> ScoreAmountFit(requested, min, max) != 0.0
    ensures AmountAllows(requested, min, max) ==> 0.5 <= ScoreAmountFit(requested, min, max) <= 1.0
  {
    if AmountAllows(requested, min, max) && Truthy(min) && Truthy(max) && max.value > min.value {
      var d := requested.value - (min.value + max.value) / 2.0;
      var w := max.value - min.value;
      HalfAtMost(Abs(d), w);
    }
  }

  lemma HalfAtMost(d: real, w: real)
    requires w > 0.0 && 0.0 <= d <= w / 2.0
    ensures 0.0 <= d / w <= 0.5
  {
    var q := d / w;
    assert q * w == d;
    if q > 0.5 {
      Scale(0.5, q, w);
    }
    if q < 0.0 {
      Scale(q, 0.0, w);
    }
  }

  lemma Scale(p: real, q: real, w: real)
    requires p < q && w > 0.0
    ensures p * w < q * w
  {
  }

  /** Every returned match scores between 51 and 95 percent. */
  lemma ScoreRange(row: ProductRow, input: PrequalInput)
    requires Passes(row, input)
    ensures 51 <= Score(row, input).matchPercent <= 95
  {
    hide Passes, ToBucketId;
    var a := ScoreAmountFit(input.requestedAmount, row.minAmount, row.maxAmount);
    assert 0.4 <= a <= 1.0 by {
      PassesAmount(row, input);
      if Truthy(input.requestedAmount) && input.requestedAmount.value > 0.0 {
        FilterIsScoreZero(input.requestedAmount, row.minAmount, row.maxAmount);
      }
    }
  }

  lemma PassesAmount(row: ProductRow, input: PrequalInput)
    requires Passes(row, input)
    ensures AmountAllows(input.requestedAmount, row.minAmount, row.maxAmount)
  {
  }

  /**
   The country excludes a row exactly when it has one other than BOTH, the applicant's is known, and the two differ;
   apart from that it plays no part.
   */
  lemma CountryDecides(row: ProductRow, input: PrequalInput)
    ensures Passes(row, input) <==>
            && Passes(row.(country := None), input)
            && !(row.country.Some? && row.country.value != "" && row.country.value != "BOTH"
                 && input.country.Some? && input.country.value != "" && input.country.value != row.country.value)
  {
    hide ToBucketId, AmountAllows;
  }

  /** Between two bounds the fit falls from 1 in the middle in proportion to the distance, to one half at the bounds. */
  lemma FitIsLinear(amount: real, low: real, high: real)
    requires 0.0 < low < high && low <= amount <= high
    ensures var fit := ScoreAmountFit(Some(amount), Some(low), Some(high));
            && fit * (high - low) == (high - low) - (if 2.0 * amount < low + high then (low + high) / 2.0 - amount
                                                     else amount - (low + high) / 2.0)
  {
    var w, d := high - low, Abs(amount - (low + high) / 2.0);
    HalfAtMost(d, w);
    assert d / w * w == d;
    assert (1.0 - d / w) * w == w - d / w * w;
  }

  /** Without a positive request the fit is 0.4; with one bound or none, met, it is 0.8. */
  lemma FitWithoutRange(requested: Option<real>, bound: Option<real>)
    ensures requested.None? || requested.value <= 0.0 ==> ScoreAmountFit(requested, bound, bound) == 0.4
    ensures requested.Some? && requested.value > 0.0 ==>
              && ScoreAmountFit(requested, None, None) == 0.8
              && (bound.Some? && 0.0 < bound.value <= requested.value ==> ScoreAmountFit(requested, bound, None) == 0.8)
              && (bound.Some? && bound.value >= requested.value ==> ScoreAmountFit(requested, None, bound) == 0.8)
  {
  }

  /** A bound of zero is no bound, and a request for nothing no request. */
  lemma ZeroIsNothing(row: ProductRow, input: PrequalInput)
    ensures Passes(row.(minAmount := Some(0.0)), input) == Passes(row.(minAmount := None), input)
    ensures Passes(row.(maxAmount := Some(0.0)), input) == Passes(row.(maxAmount := None), input)
    ensures Passes(row, input.(requestedAmount := Some(0.0))) == Passes(row, input.(requestedAmount := None))
    ensures Score(row.(minAmount := Some(0.0)), input).matchPercent ==
            Score(row.(minAmount := None), input).matchPercent
    ensures Score(row.(maxAmount := Some(0.0)), input).matchPercent ==
            Score(row.(maxAmount := None), input).matchPercent
  {
    hide ToBucketId;
  }

  /** Amounts outside the bounds exclude a row, and nothing else about the amount does. */
  lemma AmountDecides(row: ProductRow, input: PrequalInput, amount: real)
    requires input.requestedAmount == Some(amount) && amount != 0.0
    ensures Passes(row, input) <==>
            && Passes(row, input.(requestedAmount := None))
            && (row.minAmount.Some? && row.minAmount.value != 0.0 ==> row.minAmount.value <= amount)
            && (row.maxAmount.Some? && row.maxAmount.value != 0.0 ==> amount <= row.maxAmount.value)
  {
    hide ToBucketId;
  }

  /** Only two years in business and a revenue of 120000 matter, and reaching either raises the score. */
  lemma Thresholds(row: ProductRow, input: PrequalInput, years: real, revenue: real)
    requires Passes(row, input)
    ensures Score(row, input.(timeInBusiness := Some(years))) ==
            Score(row, input.(timeInBusiness := if years >= 24.0 then Some(24.0) else None))
    ensures Score(row, input.(revenue := Some(revenue))) ==
            Score(row, input.(revenue := if revenue >= 120000.0 then Some(120000.0) else None))
    ensures Score(row, input.(timeInBusiness := Some(24.0))).matchPercent >
            Score(row, input.(timeInBusiness := None)).matchPercent
    ensures Score(row, input.(revenue := Some(120000.0))).matchPercent >
            Score(row, input.(revenue := None)).matchPercent
  {
    hide Passes, ScoreAmountFit;
    FitInRange(row, input);
  }

  lemma FitInRange(row: ProductRow, input: PrequalInput)
    requires Passes(row, input)
    ensures 0.4 <= ScoreAmountFit(input.requestedAmount, row.minAmount, row.maxAmount) <= 1.0
  {
    hide Passes, ToBucketId;
    PassesAmount(row, input);
    if Truthy(input.requestedAmount) && input.requestedAmount.value > 0.0 {
      FilterIsScoreZero(input.requestedAmount, row.minAmount, row.maxAmount);
    }
  }

  function Asking(amount: Option<real>, years: bool, revenue: bool): PrequalInput {
    PrequalInput(amount, None, None, if years then Some(24.0) else None, if revenue then Some(120000.0) else None)
  }

  /** The percentages for a row from 100 to 300, without an amount, at the middle and at a bound. */
  lemma Percentages(row: ProductRow)
    requires row.minAmount == Some(100.0) && row.maxAmount == Some(300.0)
    ensures Score(row, Asking(None, false, false)).matchPercent == 51
    ensures Score(row, Asking(None, true, false)).matchPercent == 58
    ensures Score(row, Asking(None, false, true)).matchPercent == 59
    ensures Score(row, Asking(None, true, true)).matchPercent == 65
    ensures Score(row, Asking(Some(300.0), false, false)).matchPercent == 56
    ensures Score(row, Asking(Some(200.0), false, false)).matchPercent == 81
    ensures Score(row, Asking(Some(200.0), true, true)).matchPercent == 95
  {
    assert (100.0 + 300.0) / 2.0 == 200.0 && 200.0 / 200.0 == 1.0 && 100.0 / 200.0 == 0.5;
  }

  lemma {:induction false} ScoredAre(rows: seq<ProductRow>, input: PrequalInput, m: LenderMatch)
    ensures m in Scored(rows, input) <==> m.row in rows && Passes(m.row, input) && m == Score(m.row, input)
    ensures multiset(Scored(rows, input))[m] == if Passes(m.row, input) && m == Score(m.row, input)
                                                then multiset(rows)[m.row] else 0
  {
    hide Passes, Score;
    if rows != [] {
      ScoredAre(rows[1..], input, m);
      assert rows == [rows[0]] + rows[1..];
      assert Score(rows[0], input).row == rows[0] by { ScoreKeepsRow(rows[0], input); }
    }
  }

  lemma ScoreKeepsRow(row: ProductRow, input: PrequalInput)
    ensures Score(row, input).row == row
  {
  }

  /** The result: exactly the passing rows, each as often as it came, best first, between 51 and 95 percent. */
  lemma MatchesAreRanked(rows: seq<ProductRow>, input: PrequalInput)
    ensures var r := MatchLenders(rows, input);
            forall i, j :: 0 <= i < j < |r| ==> r[i].matchPercent >= r[j].matchPercent
    ensures forall m :: multiset(MatchLenders(rows, input))[m] ==
                        if Passes(m.row, input) && m == Score(m.row, input) then multiset(rows)[m.row] else 0
    ensures forall m :: m in MatchLenders(rows, input) ==> 51 <= m.matchPercent <= 95
  {
    hide Passes, Score, Sort, Scored;
    SortSorts(Scored(rows, input), BY_PERCENT);
    var r := MatchLenders(rows, input);
    forall i, j | 0 <= i < j < |r|
      ensures r[i].matchPercent >= r[j].matchPercent
    {
      assert BY_PERCENT(r[i], r[j]);
    }
    forall m
      ensures multiset(MatchLenders(rows, input))[m] ==
              if Passes(m.row, input) && m == Score(m.row, input) then multiset(rows)[m.row] else 0
    {
      ScoredAre(rows, input, m);
    }
    forall m | m in MatchLenders(rows, input)
      ensures 51 <= m.matchPercent <= 95
    {
      assert m in multiset(MatchLenders(rows, input));
      ScoreRange(m.row, input);
    }
  }

  // ---- Buckets ----

  /** Squeezing separators leaves none, and keeps upper case. */
  lemma {:induction false} SqueezeSeparators(s: string, inRun: bool)
    requires forall k :: 0 <= k < |s| ==> UpperChar(s[k]) == s[k]
    ensures IsClean(ReplaceRuns(s, IsSeparator, '_', inRun))
  {
    if s != "" {
      var rest := ReplaceRuns(s[1..], IsSeparator, '_', IsSeparator(s[0]));
      SqueezeSeparators(s[1..], IsSeparator(s[0]));
      var first := if !IsSeparator(s[0]) then [s[0]] else if inRun then "" else "_";
      assert ReplaceRuns(s, IsSeparator, '_', inRun) == first + rest;
    }
  }

  /** Squeezing underscores leaves no two in a row, and nothing new. */
  lemma {:induction false} SqueezeUnderscores(s: string, inRun: bool)
    requires IsClean(s)
    ensures var r := ReplaceRuns(s, IsUnderscore, '_', inRun);
            IsNormal(r) && (inRun && r != "" ==> r[0] != '_')
  {
    if s != "" {
      SqueezeUnderscores(s[1..], s[0] == '_');
    }
  }

  /** Squeezing underscores leaves text without two in a row alone. */
  lemma {:induction false} SqueezeUnderscoresFixed(s: string, inRun: bool)
    requires IsNormal(s) && (inRun && s != "" ==> s[0] != '_')
    ensures ReplaceRuns(s, IsUnderscore, '_', inRun) == s
  {
    if s != "" {
      assert |s| > 1 ==> !(s[0] == '_' && s[0 + 1] == '_');
      assert IsNormal(s[1..]);
      SqueezeUnderscoresFixed(s[1..], s[0] == '_');
    }
  }

  lemma NormalizedIsNormal(raw: string)
    ensures IsNormal(Normalized(raw))
  {
    hide Trim, ReplaceRuns;
    var u := Upper(Trim(raw));
    assert forall k :: 0 <= k < |u| ==> UpperChar(u[k]) == u[k];
    SqueezeSeparators(u, false);
    SqueezeUnderscores(ReplaceRuns(u, IsSeparator, '_', false), false);
  }

  lemma NormalIsFixed(s: string)
    requires IsNormal(s)
    ensures Normalized(s) == s
  {
    hide Trim, ReplaceRuns;
    TrimmedFixed(s);
    assert Upper(s) == s;
    ReplaceNoRuns(s, IsSeparator, '_', false);
    SqueezeUnderscoresFixed(s, false);
  }

  /** Putting a bucket through `toBucketId` once more changes nothing. */
  lemma ToBucketIdIdempotent(raw: Option<string>)
    ensures ToBucketId(ToBucketId(raw)) == ToBucketId(raw)
  {
    hide Normalized, IsNormal;
    if raw.Some? && Normalized(raw.value) != "" {
      var n := Normalized(raw.value);
      NormalizedIsNormal(raw.value);
      BucketIsNormal(n);
      BucketIsFixed(n);
      NormalIsFixed(Bucket(n));
    }
  }

  lemma BucketIsNormal(n: string)
    requires IsNormal(n) && n != ""
    ensures IsNormal(Bucket(n)) && Bucket(n) != ""
  {
    hide IsNormal;
  }

  lemma BucketCases(n: string)
    ensures || Bucket(n) == n || Bucket(n) == LINE_OF_CREDIT || Bucket(n) == TERM_LOAN || Bucket(n) == EQUIPMENT_FINANCE
            || Bucket(n) == FACTORING || Bucket(n) == PURCHASE_ORDER_FINANCE || Bucket(n) == MERCHANT_CASH_ADVANCE
            || Bucket(n) == MEDIA || Bucket(n) == ASSET_BASED_LENDING || Bucket(n) == SBA_GOVERNMENT
            || Bucket(n) == STARTUP_CAPITAL
  {
    hide IsNormal, LINE_OF_CREDIT, TERM_LOAN, EQUIPMENT_FINANCE, FACTORING, PURCHASE_ORDER_FINANCE,
      MERCHANT_CASH_ADVANCE, MEDIA, ASSET_BASED_LENDING, SBA_GOVERNMENT, STARTUP_CAPITAL;
  }

  /** A bucket is listed under its own name, and every other name keeps itself. */
  lemma BucketIsFixed(n: string)
    ensures Bucket(Bucket(n)) == Bucket(n)
  {
    hide IsNormal, Bucket, LINE_OF_CREDIT, TERM_LOAN, EQUIPMENT_FINANCE, FACTORING, PURCHASE_ORDER_FINANCE,
      MERCHANT_CASH_ADVANCE, MEDIA, ASSET_BASED_LENDING, SBA_GOVERNMENT, STARTUP_CAPITAL;
    BucketCases(n);
    FirstBucketsAreFixed();
    LastBucketsAreFixed();
  }

  lemma FirstBucketsAreFixed()
    ensures Bucket(LINE_OF_CREDIT) == LINE_OF_CREDIT && Bucket(TERM_LOAN) == TERM_LOAN
    ensures Bucket(EQUIPMENT_FINANCE) == EQUIPMENT_FINANCE && Bucket(FACTORING) == FACTORING
    ensures Bucket(PURCHASE_ORDER_FINANCE) == PURCHASE_ORDER_FINANCE
  {
    hide IsNormal;
  }

  lemma LastBucketsAreFixed()
    ensures Bucket(MERCHANT_CASH_ADVANCE) == MERCHANT_CASH_ADVANCE && Bucket(MEDIA) == MEDIA
    ensures Bucket(ASSET_BASED_LENDING) == ASSET_BASED_LENDING && Bucket(SBA_GOVERNMENT) == SBA_GOVERNMENT
    ensures Bucket(STARTUP_CAPITAL) == STARTUP_CAPITAL
  {
    hide IsNormal;
  }

  /** Names in two words read alike in any case, with any run of separators between them and blanks around them. */
  lemma NamesReadAlike(a: string, b: string, run: string, before: string, after: string)
    requires IsNormal(a) && IsNormal(b) && a != "" && b != "" && a[|a| - 1] != '_' && b[0] != '_'
    requires run != "" && forall k :: 0 <= k < |run| ==> IsSeparator(run[k])
    requires AllSpace(before) && AllSpace(after)
    ensures Normalized(before + Lower(a) + run + Lower(b) + after) == a + "_" + b
    ensures Normalized(before + a + run + b + after) == a + "_" + b
  {
    hide Normalized, IsNormal, IsSpace, IsSeparator, Lower;
    Reads(a, b, run, before, after, a, b);
    Reads(a, b, run, before, after, Lower(a), Lower(b));
  }

  /** A normal name, in either case. */
  lemma NormalLetters(a: string, x: string)
    requires IsNormal(a) && a != "" && (x == a || x == Lower(a))
    ensures Upper(x) == a && x != "" && !IsSpace(x[0]) && !IsSpace(x[|x| - 1])
    ensures forall k :: 0 <= k < |a| ==> !IsSeparator(a[k])
  {
    CasesUndone(a);
    assert Upper(a) == a;
    assert !IsSeparator(a[0]) && !IsSeparator(a[|a| - 1]);
  }

  lemma SeparatorsAreUpper(run: string)
    requires forall k :: 0 <= k < |run| ==> IsSeparator(run[k])
    ensures Upper(run) == run
  {
  }

  lemma Reads(a: string, b: string, run: string, before: string, after: string, x: string, y: string)
    requires IsNormal(a) && IsNormal(b) && a != "" && b != "" && a[|a| - 1] != '_' && b[0] != '_'
    requires run != "" && forall k :: 0 <= k < |run| ==> IsSeparator(run[k])
    requires AllSpace(before) && AllSpace(after)
    requires (x == a && y == b) || (x == Lower(a) && y == Lower(b))
    ensures Normalized(before + x + run + y + after) == a + "_" + b
  {
    hide Trim, ReplaceRuns, IsSpace, IsSeparator, IsNormal, Upper, Lower;
    NormalLetters(a, x);
    NormalLetters(b, y);
    SeparatorsAreUpper(run);
    var inner := x + run + y;
    Padded(before, x, run, y, after);
    CasesConcat(x + run, y);
    CasesConcat(x, run);
    ReplaceBetween(a, run, b, IsSeparator, '_');
    JoinedIsNormal(a, b);
    SqueezeUnderscoresFixed(a + "_" + b, false);
  }

  lemma JoinedIsNormal(a: string, b: string)
    requires IsNormal(a) && IsNormal(b) && a != "" && b != "" && a[|a| - 1] != '_' && b[0] != '_'
    ensures IsNormal(a + "_" + b)
  {
    var r := a + "_" + b;
    forall k | 0 <= k < |r|
      ensures !IsSeparator(r[k]) && UpperChar(r[k]) == r[k]
    {
      assert r[k] == if k < |a| then a[k] else if k == |a| then '_' else b[k - |a| - 1];
    }
    forall k | 0 <= k < |r| - 1
      ensures !(r[k] == '_' && r[k + 1] == '_')
    {
      if k + 1 < |a| {
        assert r[k] == a[k] && r[k + 1] == a[k + 1];
      } else if k > |a| {
        assert r[k] == b[k - |a| - 1] && r[k + 1] == b[k - |a| - 1 + 1];
      }
    }
  }

  /** The category excludes a row exactly when one is wanted and the row's falls into another bucket. */
  lemma CategoryDecides(row: ProductRow, input: PrequalInput)
    ensures Passes(row, input) <==>
            && Passes(row, input.(category := None))
            && (ToBucketId(input.category) == None || ToBucketId(row.category) == ToBucketId(input.category))
  {
    hide Normalized, Bucket, AmountAllows;
  }

  /** Working capital is a term loan, invoice factoring is factoring. */
  lemma SpecialAliases()
    ensures Bucket("WORKING_CAPITAL") == Bucket("TERM_LOAN") && Bucket("INVOICE_FACTORING") == Bucket("FACTORING")
  {
    hide IsNormal;
  }
}
