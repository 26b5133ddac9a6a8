/**
 * The manifest of data files: for each year and month, the file of each
 * bank. `getAvailableMonths` lists the (year, month) pairs newest first and
 * `getDataFile` looks up one file, answering `null` when an entry is missing.
 */
module DataManifest {
  import opened Results
  import Sorting

  /** A CSV file the application can load. */
  datatype DataFile = DataFile(year: int, month: int, bank: string, path: string, displayName: string)

  /** Year, then month, then bank name, to the file. */
  type Manifest = map<int, map<int, map<string, DataFile>>>

  /** The two banks a file can belong to. */
  type Bank = b: string | b == "wise" || b == "bn_bank" witness "wise"

  const Wise: Bank := "wise"
  const BnBank: Bank := "bn_bank"

  const Files: Manifest := map[
    2025 := map[
      4 := map[
        Wise := DataFile(2025, 4, Wise, "data/2025/4/wise.csv", "Wise - April 2025"),
        BnBank := DataFile(2025, 4, BnBank, "data/2025/4/bn_brukskonto.csv", "BN Bank - April 2025")],
      5 := map[
        Wise := DataFile(2025, 5, Wise, "data/2025/5/wise.csv", "Wise - May 2025"),
        BnBank := DataFile(2025, 5, BnBank, "data/2025/5/bn_brukskonto.csv", "BN Bank - May 2025")]]]

  datatype YearMonth = YearMonth(year: int, month: int)

  /** `a` is strictly newer than `b`. */
  predicate Newer(a: YearMonth, b: YearMonth)
  {
    a.year > b.year || (a.year == b.year && a.month > b.month)
  }

  /**
   * The comparator `b.year !== a.year ? b.year - a.year : b.month - a.month`
   * as "may stay ahead": `a` is not older than `b`.
   */
  function NewestFirst(): (YearMonth, YearMonth) -> bool
  {
    (a: YearMonth, b: YearMonth) => a.year > b.year || (a.year == b.year && a.month >= b.month)
  }

  lemma NewestFirstIsPreorder()
    ensures Sorting.TotalPreorder(NewestFirst())
  {
  }

  /** The pair is an entry of the manifest. */
  predicate Listed(manifest: Manifest, ym: YearMonth)
  {
    ym.year in manifest && ym.month in manifest[ym.year]
  }

  /** The least element of a non-empty finite set of integers. */
  ghost function Least(s: set<int>): (m: int)
    requires s != {}
    ensures m in s && forall y :: y in s ==> m <= y
    decreases |s|
  {
    assert exists x :: x in s by {
      if forall x :: x !in s {
        assert false;
      }
    }
    var x :| x in s;
    if s == {x} then x
    else
      var m := Least(s - {x});
      assert forall y :: y in s ==> y == x || y in s - {x};
      if x < m then x else m
  }

  ghost predicate Distinct<T>(s: seq<T>)
  {
    forall i, j :: 0 <= i < j < |s| ==> s[i] != s[j]
  }

  /** A sequence without repetitions holds each of its elements once. */
  lemma {:induction false} DistinctCountsOne<T>(s: seq<T>, x: T)
    requires Distinct(s)
    ensures multiset(s)[x] <= 1
  {
    if |s| > 0 {
      assert s == [s[0]] + s[1..];
      assert Distinct(s[1..]) by {
        forall i, j | 0 <= i < j < |s[1..]| ensures s[1..][i] != s[1..][j] {
          assert s[1..][i] == s[i + 1] && s[1..][j] == s[j + 1];
        }
      }
      DistinctCountsOne(s[1..], x);
      if x == s[0] {
        assert x !in s[1..] by {
          forall i | 0 <= i < |s[1..]| ensures s[1..][i] != x {
            assert s[1..][i] == s[i + 1];
          }
        }
      }
    }
  }

  /** An element at two positions is counted at least twice. */
  lemma RepeatCountsTwo<T>(s: seq<T>, i: nat, j: nat)
    requires i < j < |s|
    ensures s[i] == s[j] ==> multiset(s)[s[i]] >= 2
  {
    assert s == s[..i] + [s[i]] + s[i + 1..j] + [s[j]] + s[j + 1..];
  }

  /** A permutation of a sequence without repetitions has none either. */
  lemma PermutationKeepsDistinct<T>(a: seq<T>, b: seq<T>)
    requires Distinct(a)
    requires multiset(a) == multiset(b)
    ensures Distinct(b)
  {
    forall i, j | 0 <= i < j < |b| ensures b[i] != b[j] {
      DistinctCountsOne(a, b[i]);
      RepeatCountsTwo(b, i, j);
    }
  }

  /**
   * `getAvailableMonths`: every (year, month) key of the manifest once,
   * newest first. `Object.keys` lists integer keys in ascending order, so
   * the loops visit years, and months within a year, from the least up.
   */
  method AvailableMonths(manifest: Manifest) returns (r: seq<YearMonth>)
    ensures forall ym :: ym in r <==> Listed(manifest, ym)
    ensures forall i, j :: 0 <= i < j < |r| ==> Newer(r[i], r[j])
    ensures |r| > 0 ==> forall ym :: Listed(manifest, ym) && ym != r[0] ==> Newer(r[0], ym)
  {
    var months: seq<YearMonth> := [];
    var years := manifest.Keys;
    while years != {}
      invariant years <= manifest.Keys
      invariant forall ym :: ym in months <==> Listed(manifest, ym) && ym.year !in years
      invariant Distinct(months)
      decreases |years|
    {
      assert Least(years) in years;
      var year :| year in years && forall y :: y in years ==> year <= y;
      var monthKeys := manifest[year].Keys;
      ghost var before := months;
      while monthKeys != {}
        invariant monthKeys <= manifest[year].Keys
        invariant forall ym :: ym in months <==>
          ym in before || (ym.year == year && ym.month in manifest[year] && ym.month !in monthKeys)
        invariant Distinct(months)
        decreases |monthKeys|
      {
        assert Least(monthKeys) in monthKeys;
        var month :| month in monthKeys && forall m :: m in monthKeys ==> month <= m;
        assert YearMonth(year, month) !in months;
        months := months + [YearMonth(year, month)];
        monthKeys := monthKeys - {month};
      }
      years := years - {year};
    }
    Sorting.SortByCorrect(months, NewestFirst());
    NewestFirstIsPreorder();
    r := Sorting.SortBy(months, NewestFirst());
    PermutationKeepsDistinct(months, r);
    forall ym ensures ym in r <==> ym in months {
      assert ym in r <==> ym in multiset(r);
      assert ym in months <==> ym in multiset(months);
    }
  }

  /**
   * `getDataFile`: `null` when the year is missing, when the month is
   * missing for that year, or when the month has no file of that bank.
   */
  function GetDataFile(manifest: Manifest, year: int, month: int, bank: Bank): (r: Option<DataFile>)
    ensures year !in manifest ==> r == None
    ensures year in manifest && month !in manifest[year] ==> r == None
    ensures r.Some? <==> Listed(manifest, YearMonth(year, month)) && bank in manifest[year][month]
    ensures r.Some? ==> r.value == manifest[year][month][bank]
  {
    if year !in manifest then None
    else if month !in manifest[year] then None
    else if bank !in manifest[year][month] then None
    else Some(manifest[year][month][bank])
  }

  /** Every file of the manifest sits under its own year, month and bank. */
  predicate WellFiled(manifest: Manifest)
  {
    forall year, month, bank :: year in manifest && month in manifest[year] && bank in manifest[year][month] ==>
      var f := manifest[year][month][bank];
      f.year == year && f.month == month && f.bank == bank
  }

  /** The files the application ships are filed under their own year, month and bank. */
  lemma FilesWellFiled()
    ensures WellFiled(Files)
  {
  }

  /** A file found in a well-filed manifest is the file of the year, month and bank asked for. */
  lemma GetDataFileMatches(manifest: Manifest, year: int, month: int, bank: Bank)
    requires WellFiled(manifest)
    ensures var r := GetDataFile(manifest, year, month, bank);
      r.Some? ==> r.value.year == year && r.value.month == month && r.value.bank == bank
  {
  }

  /** Both banks have a file for April and for May 2025, and nothing else is listed. */
  lemma ShippedMonths()
    ensures forall ym :: Listed(Files, ym) <==> ym == YearMonth(2025, 4) || ym == YearMonth(2025, 5)
    ensures forall bank: Bank, month :: month == 4 || month == 5 ==> GetDataFile(Files, 2025, month, bank).Some?
  {
  }
}
