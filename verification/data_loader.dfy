/** The record store: the three record kinds held in memory (the CSV files
    are not modelled), retrieved with the optional country and inclusive
    year-range filters, plus the year range and the list of countries. */
module DataLoader {
  import opened Wrappers
  import opened Text
  import opened Seqs
  import opened Schemas

  /** The backing data, in file order. */
  datatype Store = Store(
    rentals: seq<RentalRecord>,
    inflation: seq<InflationRecord>,
    buildings: seq<BuildingRecord>)
  {
    /** Every stored record satisfies its schema. The loader reads the files
        without checking this; it is an assumption about their contents. */
    predicate Valid() {
      && (forall x :: x in rentals ==> x.Valid())
      && (forall x :: x in inflation ==> x.Valid())
      && (forall x :: x in buildings ==> x.Valid())
    }
  }

  datatype LoaderError = NoRentalRows  // min/max over an empty year column

  /** A country query filters only when it is present and non-empty. */
  predicate FiltersCountry(query: Option<string>) {
    query.Some? && query.value != ""
  }

  predicate CountryMatches(code: string, query: Option<string>) {
    !FiltersCountry(query) || code == Upper(query.value)
  }

  /** The reference meaning of a retrieval: country and both optional,
      inclusive year bounds. */
  predicate Matches(code: string, year: int, query: Option<string>, startYear: Option<int>, endYear: Option<int>) {
    && CountryMatches(code, query)
    && (startYear.None? || year >= startYear.value)
    && (endYear.None? || year <= endYear.value)
  }

  function ByCountry<T(==,!new)>(rows: seq<T>, code: T -> string, query: Option<string>): (r: seq<T>)
    ensures IsSubsequence(r, rows)
    ensures forall x :: multiset(r)[x] == if CountryMatches(code(x), query) then multiset(rows)[x] else 0
    ensures forall x :: x in r <==> x in rows && CountryMatches(code(x), query)
  {
    IsSubsequenceReflexive(rows);
    if FiltersCountry(query) then Filter(rows, x => code(x) == Upper(query.value)) else rows
  }

  function FromYear<T(==,!new)>(rows: seq<T>, year: T -> int, startYear: Option<int>): (r: seq<T>)
    ensures IsSubsequence(r, rows)
    ensures forall x :: multiset(r)[x] == if startYear.None? || year(x) >= startYear.value then multiset(rows)[x] else 0
  {
    IsSubsequenceReflexive(rows);
    if startYear.Some? then Filter(rows, x => year(x) >= startYear.value) else rows
  }

  function UntilYear<T(==,!new)>(rows: seq<T>, year: T -> int, endYear: Option<int>): (r: seq<T>)
    ensures IsSubsequence(r, rows)
    ensures forall x :: multiset(r)[x] == if endYear.None? || year(x) <= endYear.value then multiset(rows)[x] else 0
  {
    IsSubsequenceReflexive(rows);
    if endYear.Some? then Filter(rows, x => year(x) <= endYear.value) else rows
  }

  /** Country filter, then the lower year bound, then the upper one. */
  function Select<T(==,!new)>(
    rows: seq<T>, code: T -> string, year: T -> int,
    query: Option<string>, startYear: Option<int>, endYear: Option<int>): (r: seq<T>)
    ensures IsSubsequence(r, rows)
    ensures forall x :: multiset(r)[x] == if Matches(code(x), year(x), query, startYear, endYear) then multiset(rows)[x] else 0
    ensures forall x :: x in r <==> x in rows && Matches(code(x), year(x), query, startYear, endYear)
  {
    var byCountry := ByCountry(rows, code, query);
    var fromYear := FromYear(byCountry, year, startYear);
    var r := UntilYear(fromYear, year, endYear);
    IsSubsequenceTransitive(r, fromYear, byCountry);
    IsSubsequenceTransitive(r, byCountry, rows);
    r
  }

  function LoadRentals(
    rentals: seq<RentalRecord>, query: Option<string>,
    startYear: Option<int>, endYear: Option<int>): (r: seq<RentalRecord>)
    ensures IsSubsequence(r, rentals)
    ensures forall x :: multiset(r)[x] == if Matches(x.countryCode, x.year, query, startYear, endYear) then multiset(rentals)[x] else 0
    ensures forall x :: x in r <==> x in rentals && Matches(x.countryCode, x.year, query, startYear, endYear)
    ensures !FiltersCountry(query) && startYear.None? && endYear.None? ==> r == rentals
    ensures FiltersCountry(query) && (forall x :: x in rentals ==> x.countryCode != Upper(query.value)) ==> r == []
  {
    Select(rentals, (x: RentalRecord) => x.countryCode, (x: RentalRecord) => x.year, query, startYear, endYear)
  }

  function LoadInflation(
    inflation: seq<InflationRecord>, query: Option<string>,
    startYear: Option<int>, endYear: Option<int>): (r: seq<InflationRecord>)
    ensures IsSubsequence(r, inflation)
    ensures forall x :: multiset(r)[x] == if Matches(x.countryCode, x.year, query, startYear, endYear) then multiset(inflation)[x] else 0
    ensures forall x :: x in r <==> x in inflation && Matches(x.countryCode, x.year, query, startYear, endYear)
    ensures !FiltersCountry(query) && startYear.None? && endYear.None? ==> r == inflation
    ensures FiltersCountry(query) && (forall x :: x in inflation ==> x.countryCode != Upper(query.value)) ==> r == []
  {
    Select(inflation, (x: InflationRecord) => x.countryCode, (x: InflationRecord) => x.year, query, startYear, endYear)
  }

  function LoadBuildings(buildings: seq<BuildingRecord>, query: Option<string>): (r: seq<BuildingRecord>)
    ensures IsSubsequence(r, buildings)
    ensures forall x :: multiset(r)[x] == if CountryMatches(x.countryCode, query) then multiset(buildings)[x] else 0
    ensures forall x :: x in r <==> x in buildings && CountryMatches(x.countryCode, query)
    ensures !FiltersCountry(query) ==> r == buildings
  {
    ByCountry(buildings, (x: BuildingRecord) => x.countryCode, query)
  }

  function MinYear(rows: seq<RentalRecord>): (m: int)
    requires |rows| > 0
    ensures forall i :: 0 <= i < |rows| ==> m <= rows[i].year
    ensures exists i :: 0 <= i < |rows| && rows[i].year == m
  {
    if |rows| == 1 then rows[0].year
    else
      var rest := MinYear(rows[1..]);
      assert forall i :: 1 <= i < |rows| ==> rows[i] == rows[1..][i - 1];
      if rows[0].year <= rest then rows[0].year else rest
  }

  function MaxYear(rows: seq<RentalRecord>): (m: int)
    requires |rows| > 0
    ensures forall i :: 0 <= i < |rows| ==> rows[i].year <= m
    ensures exists i :: 0 <= i < |rows| && rows[i].year == m
  {
    if |rows| == 1 then rows[0].year
    else
      var rest := MaxYear(rows[1..]);
      assert forall i :: 1 <= i < |rows| ==> rows[i] == rows[1..][i - 1];
      if rows[0].year >= rest then rows[0].year else rest
  }

  /** (earliest, latest) year among the rentals the country query selects;
      an empty selection is an error rather than an undefined minimum. */
  function GetDateRange(rentals: seq<RentalRecord>, query: Option<string>): (r: Result<(int, int), LoaderError>)
    ensures r.Failure? <==> forall x :: x in rentals ==> !CountryMatches(x.countryCode, query)
    ensures r.Failure? ==> r.error == NoRentalRows
    ensures r.Success? ==> r.value.0 <= r.value.1
    ensures r.Success? ==> forall x :: x in rentals && CountryMatches(x.countryCode, query) ==> r.value.0 <= x.year <= r.value.1
    ensures r.Success? ==> exists x :: x in rentals && CountryMatches(x.countryCode, query) && x.year == r.value.0
    ensures r.Success? ==> exists x :: x in rentals && CountryMatches(x.countryCode, query) && x.year == r.value.1
  {
    var rows := LoadRentals(rentals, query, None, None);
    if |rows| == 0 then
      NoRowsMeansNoMatch(rentals, query);
      Failure(NoRentalRows)
    else
      var lo, hi := MinYear(rows), MaxYear(rows);
      YearBoundsOfSelection(rentals, query, rows, lo, hi);
      Success((lo, hi))
  }

  lemma NoRowsMeansNoMatch(rentals: seq<RentalRecord>, query: Option<string>)
    requires LoadRentals(rentals, query, None, None) == []
    ensures forall x :: x in rentals ==> !CountryMatches(x.countryCode, query)
  {
  }

  lemma YearBoundsOfSelection(rentals: seq<RentalRecord>, query: Option<string>, rows: seq<RentalRecord>, lo: int, hi: int)
    requires rows == LoadRentals(rentals, query, None, None) && |rows| > 0
    requires lo == MinYear(rows) && hi == MaxYear(rows)
    ensures lo <= hi
    ensures forall x :: x in rentals && CountryMatches(x.countryCode, query) ==> lo <= x.year <= hi
    ensures exists x :: x in rentals && CountryMatches(x.countryCode, query) && x.year == lo
    ensures exists x :: x in rentals && CountryMatches(x.countryCode, query) && x.year == hi
  {
    forall x | x in rentals && CountryMatches(x.countryCode, query)
      ensures lo <= x.year <= hi
    {
      assert x in rows;
    }
    var i :| 0 <= i < |rows| && rows[i].year == lo;
    var j :| 0 <= j < |rows| && rows[j].year == hi;
    assert rows[i] in rows && rows[j] in rows;
  }

  function CountryCodes(buildings: seq<BuildingRecord>): (codes: seq<string>)
    ensures |codes| == |buildings|
    ensures forall i :: 0 <= i < |buildings| ==> codes[i] == buildings[i].countryCode
  {
    if |buildings| == 0 then [] else [buildings[0].countryCode] + CountryCodes(buildings[1..])
  }

  predicate StrictlySorted(s: seq<string>) {
    forall i, j :: 0 <= i < j < |s| ==> StrLess(s[i], s[j])
  }

  /** Inserts `x` into a strictly sorted list unless it is already there. */
  function InsertSorted(x: string, s: seq<string>): (r: seq<string>)
    requires StrictlySorted(s)
    ensures StrictlySorted(r)
    ensures forall y :: y in r <==> y in s || y == x
  {
    if |s| == 0 then [x]
    else if x == s[0] then s
    else if StrLess(x, s[0]) then
      assert forall j :: 0 <= j < |s| ==> StrLess(x, s[j]) by {
        forall j | 0 < j < |s| ensures StrLess(x, s[j]) {
          StrLessTransitive(x, s[0], s[j]);
        }
      }
      [x] + s
    else
      StrLessTotal(x, s[0]);
      var rest := InsertSorted(x, s[1..]);
      assert forall j :: 0 <= j < |rest| ==> StrLess(s[0], rest[j]) by {
        forall j | 0 <= j < |rest| ensures StrLess(s[0], rest[j]) {
          assert rest[j] in rest;
          if rest[j] != x {
            var k :| 0 <= k < |s[1..]| && s[1..][k] == rest[j];
            assert s[k + 1] == rest[j];
          }
        }
      }
      [s[0]] + rest
  }

  /** The distinct codes, sorted. */
  function SortedDistinct(codes: seq<string>): (r: seq<string>)
    ensures StrictlySorted(r)
    ensures forall y :: y in r <==> y in codes
  {
    if |codes| == 0 then []
    else InsertSorted(codes[0], SortedDistinct(codes[1..]))
  }

  function CodeSet(buildings: seq<BuildingRecord>): set<string> {
    set b | b in buildings :: b.countryCode
  }

  /** Every country that has a building, each once, in ascending order. */
  function AvailableCountries(buildings: seq<BuildingRecord>): (r: seq<string>)
    ensures StrictlySorted(r)
    ensures forall i, j :: 0 <= i < j < |r| ==> r[i] != r[j]
    ensures forall c :: c in r <==> c in CodeSet(buildings)
  {
    var codes := CountryCodes(buildings);
    var r := SortedDistinct(codes);
    assert forall i, j :: 0 <= i < j < |r| ==> r[i] != r[j] by {
      forall i, j | 0 <= i < j < |r| ensures r[i] != r[j] {
        if r[i] == r[j] {
          StrLessIrreflexive(r[i]);
        }
      }
    }
    assert forall c :: c in codes <==> c in CodeSet(buildings) by {
      forall c ensures c in codes <==> c in CodeSet(buildings) {
        if c in codes {
          var i :| 0 <= i < |codes| && codes[i] == c;
          assert buildings[i] in buildings;
        }
        if c in CodeSet(buildings) {
          var b :| b in buildings && b.countryCode == c;
          var i :| 0 <= i < |buildings| && buildings[i] == b;
          assert codes[i] == c;
        }
      }
    }
    r
  }

  lemma FirstIsElement<T>(s: seq<T>)
    requires |s| > 0
    ensures s[0] in s
  {
  }

  /** A strictly sorted list is determined by its elements. */
  lemma {:induction false} StrictlySortedUnique(a: seq<string>, b: seq<string>)
    requires StrictlySorted(a) && StrictlySorted(b)
    requires forall y :: y in a <==> y in b
    ensures a == b
    decreases |a|
  {
    if |a| == 0 {
      if |b| > 0 {
        FirstIsElement(b);
        assert false;
      }
    } else {
      assert |b| > 0 by {
        assert a[0] in a;
      }
      if a[0] != b[0] {
        assert a[0] in b && b[0] in a;
        var i :| 0 <= i < |b| && b[i] == a[0];
        var j :| 0 <= j < |a| && a[j] == b[0];
        assert StrLess(b[0], a[0]);
        assert StrLess(a[0], b[0]);
        StrLessAsymmetric(a[0], b[0]);
      }
      forall y ensures y in a[1..] <==> y in b[1..] {
        if y in a[1..] {
          var i :| 0 <= i < |a[1..]| && a[1..][i] == y;
          assert StrLess(a[0], y);
          StrLessIrreflexive(y);
          assert y in b;
        }
        if y in b[1..] {
          var i :| 0 <= i < |b[1..]| && b[1..][i] == y;
          assert StrLess(b[0], y);
          StrLessIrreflexive(y);
          assert y in a;
        }
      }
      StrictlySortedUnique(a[1..], b[1..]);
      assert a == [a[0]] + a[1..] && b == [b[0]] + b[1..];
    }
  }

  /** The country list depends only on which countries have buildings,
      not on the order or multiplicity of the building records. */
  lemma AvailableCountriesOrderIndependent(b1: seq<BuildingRecord>, b2: seq<BuildingRecord>)
    requires CodeSet(b1) == CodeSet(b2)
    ensures AvailableCountries(b1) == AvailableCountries(b2)
  {
    StrictlySortedUnique(AvailableCountries(b1), AvailableCountries(b2));
  }
}
