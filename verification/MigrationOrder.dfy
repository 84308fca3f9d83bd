/**
 The order in which src/migrations.ts runs its files. `localeCompare` is a parameter, taken to be a total order on
 file names.
 */
module MigrationOrder {
  import opened Options
  import opened Sorting

  function DigitRun(s: string): (n: nat)
    ensures n <= |s|
    ensures forall k :: 0 <= k < n ==> '0' <= s[k] <= '9'
  {
    if s == "" || !('0' <= s[0] <= '9') then 0 else 1 + DigitRun(s[1..])
  }

  function Decimal(digits: string): nat
    requires forall k :: 0 <= k < |digits| ==> '0' <= digits[k] <= '9'
  {
    if digits == "" then 0 else Decimal(digits[..|digits| - 1]) * 10 + (digits[|digits| - 1] as int - '0' as int)
  }

  /** `^(\d+)(?:[_-]|\.)`, as a number. */
  function ParseMigrationPrefix(file: string): Option<nat> {
    var n := DigitRun(file);
    if n > 0 && n < |file| && (file[n] == '_' || file[n] == '-' || file[n] == '.')
    then Some(Decimal(file[..n]))
    else None
  }

  function CompareMigrationFiles(a: string, b: string, locale: Collator): int {
    var aPrefix, bPrefix := ParseMigrationPrefix(a), ParseMigrationPrefix(b);
    if aPrefix.Some? && bPrefix.Some? && aPrefix.value != bPrefix.value then
      (if aPrefix.value < bPrefix.value then -1 else 1)
    else if aPrefix.Some? && bPrefix.None? then -1
    else if aPrefix.None? && bPrefix.Some? then 1
    else locale(a, b)
  }

  /** The comparator is a strict total order: it tells all names apart and is antisymmetric and transitive. */
  lemma CompareIsTotalOrder(locale: Collator)
    requires IsCollator(locale)
    ensures IsCollator((a, b) => CompareMigrationFiles(a, b, locale))
  {
    hide ParseMigrationPrefix;
    var compare: Collator := (a, b) => CompareMigrationFiles(a, b, locale);
    forall a, b, c | compare(a, b) < 0 && compare(b, c) < 0
      ensures compare(a, c) < 0
    {
      assert CompareMigrationFiles(a, b, locale) < 0 && CompareMigrationFiles(b, c, locale) < 0;
      assert locale(a, b) < 0 && locale(b, c) < 0 ==> locale(a, c) < 0;
    }
    forall a, b
      ensures compare(a, b) == 0 <==> a == b
      ensures compare(a, b) < 0 <==> compare(b, a) > 0
    {
      assert locale(a, b) == 0 <==> a == b;
      assert locale(a, b) < 0 <==> locale(b, a) > 0;
      assert locale(b, a) < 0 <==> locale(a, b) > 0;
    }
  }

  function FileLe(locale: Collator): (string, string) -> bool {
    CollatorLe((a, b) => CompareMigrationFiles(a, b, locale))
  }

  // ---- Listing the directory ----

  predicate IsSqlFile(name: string) {
    |name| >= 4 && name[|name| - 4..] == ".sql"
  }

  function SqlFiles(names: seq<string>): seq<string> {
    if names == [] then [] else (if IsSqlFile(names[0]) then [names[0]] else []) + SqlFiles(names[1..])
  }

  /** The files in the order in which they run. */
  function SortedFiles(names: seq<string>, locale: Collator): seq<string> {
    Sort(SqlFiles(names), FileLe(locale))
  }

  lemma {:induction false} SqlFilesCount(names: seq<string>, x: string)
    ensures multiset(SqlFiles(names))[x] == if IsSqlFile(x) then multiset(names)[x] else 0
  {
    if names != [] {
      SqlFilesCount(names[1..], x);
      assert names == [names[0]] + names[1..];
    }
  }

  /** The order of the directory listing does not matter. */
  lemma DirectoryOrderIsIrrelevant(names: seq<string>, names': seq<string>, locale: Collator)
    requires IsCollator(locale) && multiset(names) == multiset(names')
    ensures SortedFiles(names, locale) == SortedFiles(names', locale)
  {
    forall x
      ensures multiset(SqlFiles(names))[x] == multiset(SqlFiles(names'))[x]
    {
      SqlFilesCount(names, x);
      SqlFilesCount(names', x);
    }
    CompareIsTotalOrder(locale);
    CollatorOrders((a, b) => CompareMigrationFiles(a, b, locale));
    SortIgnoresOrder(SqlFiles(names), SqlFiles(names'), FileLe(locale));
  }

  /** A directory holds each name once, and so does the sorted list. */
  lemma SortedFilesDistinct(names: seq<string>, locale: Collator)
    requires forall x :: multiset(names)[x] <= 1
    ensures forall i, j :: 0 <= i < j < |SortedFiles(names, locale)| ==>
              SortedFiles(names, locale)[i] != SortedFiles(names, locale)[j]
  {
    var files := SortedFiles(names, locale);
    forall i, j | 0 <= i < j < |files|
      ensures files[i] != files[j]
    {
      SqlFilesCount(names, files[i]);
      if files[i] == files[j] {
        CountedTwice(files, i, j);
      }
    }
  }

  /** Listed are exactly the `.sql` files, each as often as the directory has it. */
  lemma SortedFilesAre(names: seq<string>, locale: Collator, x: string)
    ensures multiset(SortedFiles(names, locale))[x + ".sql"] == multiset(names)[x + ".sql"]
    ensures x in SortedFiles(names, locale) ==> exists stem: string :: x == stem + ".sql"
  {
    var files := SortedFiles(names, locale);
    assert (x + ".sql")[|x|..] == ".sql";
    SqlFilesCount(names, x + ".sql");
    SqlFilesCount(names, x);
    if x in files {
      assert x in multiset(files);
      assert x == x[..|x| - 4] + ".sql";
    }
  }

  // ---- What the order means for the names ----

  function Digit(d: nat): char
    requires d < 10
  {
    '0' + d as char
  }

  /** A number as it is written. */
  function Numeral(n: nat): string {
    if n < 10 then [Digit(n)] else Numeral(n / 10) + [Digit(n % 10)]
  }

  function Zeros(z: nat): string {
    seq(z, _ => '0')
  }

  /** The name begins with the number, after any number of zeros, and goes on with `_`, `-` or `.`. */
  ghost predicate IsNumbered(name: string, n: nat) {
    exists z: nat, c: char, rest: string :: Numbers(name, n, z, c, rest)
  }

  predicate Numbers(name: string, n: nat, z: nat, c: char, rest: string) {
    name == Zeros(z) + Numeral(n) + [c] + rest && (c == '_' || c == '-' || c == '.')
  }

  predicate AllDigits(s: string) {
    forall k :: 0 <= k < |s| ==> '0' <= s[k] <= '9'
  }

  lemma {:induction false} NumeralDigits(n: nat)
    ensures Numeral(n) != "" && AllDigits(Numeral(n)) && Decimal(Numeral(n)) == n
  {
    if n >= 10 {
      NumeralDigits(n / 10);
      var s := Numeral(n);
      assert s[..|s| - 1] == Numeral(n / 10);
    }
  }

  lemma {:induction false} LeadingZeros(z: nat, s: string)
    requires AllDigits(s)
    ensures AllDigits(Zeros(z) + s) && Decimal(Zeros(z) + s) == Decimal(s)
  {
    var t := Zeros(z) + s;
    if s != "" {
      LeadingZeros(z, s[..|s| - 1]);
      assert t[..|t| - 1] == Zeros(z) + s[..|s| - 1];
    } else if z > 0 {
      LeadingZeros(z - 1, "");
      assert t[..|t| - 1] == Zeros(z - 1) + "";
    }
  }

  lemma {:induction false} DigitRunIs(s: string, t: string)
    requires AllDigits(s) && (t == "" || !('0' <= t[0] <= '9'))
    ensures DigitRun(s + t) == |s|
  {
    if s == "" {
      assert s + t == t;
    } else {
      assert (s + t)[1..] == s[1..] + t;
      DigitRunIs(s[1..], t);
    }
  }

  lemma NumeralStep(n: nat, d: nat)
    requires d < 10
    ensures Numeral(d) == [Digit(d)] && Numeral(0) == "0"
    ensures n > 0 ==> Numeral(n * 10 + d) == Numeral(n) + [Digit(d)]
  {
    assert n > 0 ==> (n * 10 + d) / 10 == n && (n * 10 + d) % 10 == d;
  }

  lemma DecimalLast(s: string)
    requires s != "" && AllDigits(s)
    ensures var k := |s| - 1;
            && AllDigits(s[..k]) && '0' <= s[k] <= '9'
            && Decimal(s) == Decimal(s[..k]) * 10 + (s[k] as int - '0' as int)
            && (k == 0 ==> Decimal(s[..k]) == 0)
  {
  }

  lemma MoreZeros(z: nat)
    ensures Zeros(z + 1) == Zeros(z) + "0" && Zeros(0) == ""
  {
  }

  /** Digits are zeros and then the numeral of their value. */
  lemma {:induction false} DigitsAreNumeral(s: string) returns (z: nat)
    requires s != "" && AllDigits(s)
    ensures s == Zeros(z) + Numeral(Decimal(s))
  {
    hide Numeral, Zeros, Decimal, AllDigits;
    DecimalLast(s);
    var k := |s| - 1;
    var d := s[k] as int - '0' as int;
    assert s == s[..k] + [s[k]] && Digit(d) == s[k];
    if k == 0 {
      z := 0;
      MoreZeros(0);
      NumeralStep(0, d);
    } else {
      z := DigitsAreNumeral(s[..k]);
      NumeralStep(Decimal(s[..k]), d);
      MoreZeros(z);
      if Decimal(s[..k]) == 0 {
        z := z + 1;
      }
    }
  }

  /** The parser finds a number exactly when the name is numbered with it. */
  lemma ParseMeans(name: string, n: nat)
    ensures ParseMigrationPrefix(name) == Some(n) <==> IsNumbered(name, n)
  {
    hide Decimal, Numeral, Zeros, DigitRun;
    if ParseMigrationPrefix(name) == Some(n) {
      var m := DigitRun(name);
      var z := DigitsAreNumeral(name[..m]);
      assert name == name[..m] + [name[m]] + name[m + 1..];
      assert Numbers(name, n, z, name[m], name[m + 1..]);
    }
    if z, c, rest :| Numbers(name, n, z, c, rest) {
      var digits := Zeros(z) + Numeral(n);
      NumeralDigits(n);
      LeadingZeros(z, Numeral(n));
      assert name == digits + ([c] + rest);
      DigitRunIs(digits, [c] + rest);
      assert name[..|digits|] == digits;
    }
  }

  /** How a file stands to one that comes later. */
  ghost predicate Precedes(a: string, b: string, locale: Collator) {
    && (forall m, n :: IsNumbered(a, m) && IsNumbered(b, n) ==> m < n || (m == n && locale(a, b) <= 0))
    && ((exists n :: IsNumbered(b, n)) ==> exists m :: IsNumbered(a, m))
    && (!(exists m :: IsNumbered(a, m)) && !(exists n :: IsNumbered(b, n)) ==> locale(a, b) <= 0)
  }

  /** By number, then the unnumbered ones; ties and the unnumbered ones by collation. */
  ghost predicate InMigrationOrder(files: seq<string>, locale: Collator) {
    forall i, j :: 0 <= i < j < |files| ==> Precedes(files[i], files[j], locale)
  }

  lemma CompareMeans(a: string, b: string, locale: Collator)
    requires CompareMigrationFiles(a, b, locale) <= 0
    ensures Precedes(a, b, locale)
  {
    hide IsNumbered, ParseMigrationPrefix;
    forall n: nat
      ensures ParseMigrationPrefix(a) == Some(n) <==> IsNumbered(a, n)
      ensures ParseMigrationPrefix(b) == Some(n) <==> IsNumbered(b, n)
    {
      ParseMeans(a, n);
      ParseMeans(b, n);
    }
    if ParseMigrationPrefix(a).Some? {
      assert IsNumbered(a, ParseMigrationPrefix(a).value);
    }
    if ParseMigrationPrefix(b).Some? {
      assert IsNumbered(b, ParseMigrationPrefix(b).value);
    }
  }

  /** The files run in this order. */
  lemma SortedFilesInOrder(names: seq<string>, locale: Collator)
    requires IsCollator(locale)
    ensures InMigrationOrder(SortedFiles(names, locale), locale)
  {
    hide CompareMigrationFiles, Precedes, Sort, IsCollator;
    CompareIsTotalOrder(locale);
    CollatorOrders((a, b) => CompareMigrationFiles(a, b, locale));
    var files := SortedFiles(names, locale);
    SortSorts(SqlFiles(names), FileLe(locale));
    forall i, j | 0 <= i < j < |files|
      ensures Precedes(files[i], files[j], locale)
    {
      assert FileLe(locale)(files[i], files[j]);
      CompareMeans(files[i], files[j], locale);
    }
  }

  // ---- The two document tables ----

  /** `creates(file, table)`: the file's text matches `create table [if not exists] <table>`. */
  type Creates = (string, string) -> bool

  function FirstCreating(files: seq<string>, table: string, creates: Creates): (r: Option<nat>)
    ensures r.Some? ==> r.value < |files| && creates(files[r.value], table)
    ensures forall k :: 0 <= k < (if r.Some? then r.value else |files|) ==> !creates(files[k], table)
  {
    if files == [] then None
    else if creates(files[0], table) then Some(0)
    else
      match FirstCreating(files[1..], table, creates)
      case None => None
      case Some(i) => Some(i + 1)
  }

  /** `findMigrationForTableCreation` */
  method FindMigrationForTableCreation(files: seq<string>, table: string, creates: Creates) returns (r: Option<string>)
    ensures r == match FirstCreating(files, table, creates)
                 case None => None
                 case Some(i) => Some(files[i])
  {
    var i := 0;
    while i < |files|
      invariant 0 <= i <= |files|
      invariant FirstCreating(files, table, creates) ==
                match FirstCreating(files[i..], table, creates)
                case None => None
                case Some(k) => Some(i + k)
    {
      if creates(files[i], table) {
        return Some(files[i]);
      }
      assert files[i..][1..] == files[i + 1..];
      i := i + 1;
    }
    return None;
  }

  const VERSIONS := "document_versions"
  const REVIEWS := "document_version_reviews"

  /** `listMigrationFiles`: the sorted list, or `None` when reviews would be created before versions. */
  function ListMigrationFiles(names: seq<string>, locale: Collator, creates: Creates): Option<seq<string>> {
    var files := SortedFiles(names, locale);
    var versions, reviews := FirstCreating(files, VERSIONS, creates), FirstCreating(files, REVIEWS, creates);
    if versions.Some? && reviews.Some? && reviews.value < versions.value then None else Some(files)
  }

  /**
   The listing is refused exactly when both tables are created somewhere and some file creates the reviews before any
   file, itself included, has created the versions.
   */
  lemma ListingRefusedIff(names: seq<string>, locale: Collator, creates: Creates)
    ensures var files := SortedFiles(names, locale);
            ListMigrationFiles(names, locale, creates) ==
            if (exists v :: 0 <= v < |files| && creates(files[v], "document_versions"))
               && exists r :: 0 <= r < |files| && creates(files[r], "document_version_reviews")
                              && forall k :: 0 <= k <= r ==> !creates(files[k], "document_versions")
            then None else Some(files)
  {
    hide SortedFiles, FirstCreating;
    var files := SortedFiles(names, locale);
    var versions, reviews := FirstCreating(files, VERSIONS, creates), FirstCreating(files, REVIEWS, creates);
    if versions.Some? && reviews.Some? && reviews.value < versions.value {
      assert creates(files[versions.value], "document_versions");
      assert creates(files[reviews.value], "document_version_reviews");
    }
  }
}
