/**
 Two alias tables for product categories, in src/routes/lenderProductsRequiredDocs.ts and src/ai/lenderMatchEngine.ts:
 one takes the wizard's names to the table's short codes, the other takes both to the lender matcher's buckets.
 */
module CategoryAliases {
  import opened JsStrings
  import opened RequiredDocsQuery
  import LenderMatch

  /** A name in normal form is looked up as it is. */
  lemma CodeOf(n: string)
    requires LenderMatch.IsNormal(n)
    ensures NormalizeCategory(n) == if n in CATEGORY_CODES then CATEGORY_CODES[n] else n
  {
    hide CATEGORY_CODES, Trim;
    TrimmedFixed(n);
    assert Upper(n) == n;
  }

  lemma CreditAndTerm()
    ensures LenderMatch.Bucket("LOC") == LenderMatch.Bucket("LINE_OF_CREDIT")
    ensures LenderMatch.Bucket("TERM") == LenderMatch.Bucket("TERM_LOAN")
  {
    hide LenderMatch.IsNormal;
  }

  lemma Equipment()
    ensures LenderMatch.Bucket("EQUIPMENT") == LenderMatch.Bucket("EQUIPMENT_FINANCE")
    ensures LenderMatch.Bucket("EQUIPMENT") == LenderMatch.Bucket("EQUIPMENT_FINANCING")
  {
    hide LenderMatch.IsNormal;
  }

  lemma PurchaseOrders()
    ensures LenderMatch.Bucket("PO") == LenderMatch.Bucket("PURCHASE_ORDER")
    ensures LenderMatch.Bucket("PO") == LenderMatch.Bucket("PURCHASE_ORDER_FINANCE")
  {
    hide LenderMatch.IsNormal;
  }

  lemma AdvancesAndMedia()
    ensures LenderMatch.Bucket("MCA") == LenderMatch.Bucket("MERCHANT_CASH_ADVANCE")
    ensures LenderMatch.Bucket("MEDIA") == LenderMatch.Bucket("MEDIA_FUNDING")
  {
    hide LenderMatch.IsNormal;
  }

  lemma AssetBased()
    ensures LenderMatch.Bucket("ABL") == LenderMatch.Bucket("ASSET_BASED_LENDING")
  {
    hide LenderMatch.IsNormal;
  }

  lemma GovernmentBacked()
    ensures LenderMatch.Bucket("SBA") == LenderMatch.Bucket("SBA_GOVERNMENT")
  {
    hide LenderMatch.IsNormal;
  }

  lemma Startups()
    ensures LenderMatch.Bucket("STARTUP") == LenderMatch.Bucket("STARTUP_CAPITAL")
  {
    hide LenderMatch.IsNormal;
  }

  lemma StandardIsItsOwnBucket()
    ensures LenderMatch.Bucket("STANDARD") == "STANDARD"
  {
    hide LenderMatch.IsNormal;
  }

  lemma CreditIsNot()
    ensures LenderMatch.Bucket("LOC") != "STANDARD"
  {
    hide LenderMatch.IsNormal;
  }

  lemma CodesAre(n: string)
    requires n in CATEGORY_CODES
    ensures n == "STANDARD" ==> CATEGORY_CODES[n] == "LOC"
    ensures n != "STANDARD" ==> OtherCode(n, CATEGORY_CODES[n])
  {
  }

  predicate OtherCode(n: string, code: string) {
    || (n == "LINE_OF_CREDIT" && code == "LOC") || (n == "TERM_LOAN" && code == "TERM")
    || (n == "EQUIPMENT_FINANCE" && code == "EQUIPMENT") || (n == "EQUIPMENT_FINANCING" && code == "EQUIPMENT")
    || (n == "PURCHASE_ORDER" && code == "PO") || (n == "PURCHASE_ORDER_FINANCE" && code == "PO")
    || (n == "MERCHANT_CASH_ADVANCE" && code == "MCA") || (n == "MEDIA_FUNDING" && code == "MEDIA")
    || (n == "ASSET_BASED_LENDING" && code == "ABL") || (n == "SBA_GOVERNMENT" && code == "SBA")
    || (n == "STARTUP_CAPITAL" && code == "STARTUP")
  }

  lemma StandardHasCode()
    ensures "STANDARD" in CATEGORY_CODES
  {
  }

  /** The two tables agree on every name in normal form but one: STANDARD is a line of credit only to the first. */
  lemma TablesAgreeExceptStandard(n: string)
    requires LenderMatch.IsNormal(n)
    ensures LenderMatch.Bucket(NormalizeCategory(n)) == LenderMatch.Bucket(n) <==> n != "STANDARD"
  {
    hide LenderMatch.Bucket, NormalizeCategory, CATEGORY_CODES;
    CodeOf(n);
    StandardHasCode();
    CreditAndTerm();
    Equipment();
    PurchaseOrders();
    AdvancesAndMedia();
    AssetBased();
    GovernmentBacked();
    Startups();
    StandardIsItsOwnBucket();
    CreditIsNot();
    if n in CATEGORY_CODES {
      CodesAre(n);
    }
  }
}
