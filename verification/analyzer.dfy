/** The portfolio analyzer: validates the period, resolves the analysis
    window from the latest data year, aggregates the boundary-month rents,
    orders the inflation rates, runs the calculator and assembles the
    response. Every step is a function of the store's record sequences. */
module Analyzer {
  import opened Wrappers
  import opened Text
  import opened Seqs
  import opened Schemas
  import opened Calculator
  import opened DataLoader
  import opened Dates

  /** Why an analysis fails, one constructor per distinct error the source raises. */
  datatype AnalysisError =
    | InvalidYears(years: int)                  // "Years must be one of [1, 3, 5, 10], got N"
    | NoDataFound(country: string)              // "No data found for country C"
    | InvalidDate(year: int)                    // a window year outside the calendar's range
    | InsufficientData(years: int, dataStart: int, dataEnd: int)  // "Insufficient data for N-year analysis. ..."
    | MissingBoundaryMonth(country: string, year: int, month: int) // "No rental data found for C in YYYY-MM"
    | CalculationFailed(cause: CalcError)       // a calculator error, propagated unchanged
    | InvalidResponse(fields: seq<Field>)       // a response schema constraint failed

  /** The error kinds meaning the stored data does not cover the request (as opposed to a bad request or a calculator error). */
  predicate IsMissingData(e: AnalysisError) {
    e.NoDataFound? || e.InsufficientData? || e.MissingBoundaryMonth?
  }

  /** Resolved analysis window: from January 1st to December 31st. */
  datatype Window = Window(start: Date, end: Date)

  /** The first of `years` calendar years ending with `lastYear`. */
  function FirstYear(lastYear: int, years: int): int {
    lastYear - years + 1
  }

  /** The window of `years` whole calendar years ending with the country's
      latest rental year, provided the data reaches back far enough. */
  function PeriodDates(store: Store, country: string, years: int): (r: Result<Window, AnalysisError>)
    ensures GetDateRange(store.rentals, Some(country)).Failure? ==> r == Failure(NoDataFound(country))
    ensures r.Success? <==>
      && GetDateRange(store.rentals, Some(country)).Success?
      && var (lo, hi) := GetDateRange(store.rentals, Some(country)).value;
      && IsDateYear(hi) && IsDateYear(FirstYear(hi, years))
      && lo <= FirstYear(hi, years)
    ensures r.Success? ==>
      && GetDateRange(store.rentals, Some(country)).Success?
      && var (lo, hi) := GetDateRange(store.rentals, Some(country)).value;
      && r.value.end == Date(hi, 12, 31)
      && r.value.start == Date(FirstYear(hi, years), 1, 1)
      && lo <= r.value.start.year
      && IsDateYear(r.value.start.year) && IsDateYear(r.value.end.year)
    ensures r.Success? ==> r.value.end.year - r.value.start.year == years - 1
    ensures r.Success? && years >= 1 ==> Before(r.value.start, r.value.end)
    ensures r.Failure? && r.error.InsufficientData? ==>
      && GetDateRange(store.rentals, Some(country)) == Success((r.error.dataStart, r.error.dataEnd))
      && FirstYear(r.error.dataEnd, years) < r.error.dataStart
  {
    match GetDateRange(store.rentals, Some(country))
    case Failure(_) => Failure(NoDataFound(country))
    case Success((lo, hi)) =>
      if !IsDateYear(hi) then Failure(InvalidDate(hi))
      else
        var startYear := FirstYear(hi, years);
        if !IsDateYear(startYear) then Failure(InvalidDate(startYear))
        else if startYear < lo then Failure(InsufficientData(years, lo, hi))
        else Success(Window(Date(startYear, 1, 1), Date(hi, 12, 31)))
  }

  /** The sum of all rental amounts. */
  function Total(rows: seq<RentalRecord>): real {
    if |rows| == 0 then 0.0 else rows[0].amount + Total(rows[1..])
  }

  /** The rows of one (year, month). */
  function AtMonth(rows: seq<RentalRecord>, year: int, month: int): seq<RentalRecord> {
    Filter(rows, (x: RentalRecord) => x.year == year && x.month == month)
  }

  /** The total rent collected in one (year, month). */
  function MonthTotal(rows: seq<RentalRecord>, year: int, month: int): real {
    Total(AtMonth(rows, year, month))
  }

  /** The distinct (year, month) pairs present. */
  function MonthsCovered(rows: seq<RentalRecord>): set<(int, int)> {
    set x | x in rows :: (x.year, x.month)
  }

  /** The country's rentals within the window's years. */
  function WindowRentals(store: Store, country: string, w: Window): seq<RentalRecord> {
    LoadRentals(store.rentals, Some(country), Some(w.start.year), Some(w.end.year))
  }

  datatype RentalSummary = RentalSummary(startTotal: real, endTotal: real, currency: string, totalMonths: int)

  /** The rows whose year lies within the window. */
  function YearsWithin(rows: seq<RentalRecord>, w: Window): seq<RentalRecord> {
    Filter(rows, (x: RentalRecord) => w.start.year <= x.year <= w.end.year)
  }

  /** Filtering the window's rentals by the window's years again keeps every row, in order. */
  lemma RefilterIsNoOp(store: Store, country: string, w: Window)
    ensures YearsWithin(WindowRentals(store, country, w), w) == WindowRentals(store, country, w)
  {
    var rows := WindowRentals(store, country, w);
    forall i | 0 <= i < |rows| ensures w.start.year <= rows[i].year <= w.end.year {
      assert rows[i] in rows;
    }
    FilterAllPass(rows, (x: RentalRecord) => w.start.year <= x.year <= w.end.year);
  }

  /** Boundary-month totals, currency and month count over the window's rentals;
      an empty window or a zero boundary total is an error. */
  function AggregateRentalIncome(store: Store, country: string, w: Window): (r: Result<RentalSummary, AnalysisError>)
    ensures r == Failure(NoDataFound(country)) <==> WindowRentals(store, country, w) == []
    ensures r.Failure? ==> r.error == NoDataFound(country) || r.error.MissingBoundaryMonth?
    ensures var rows := WindowRentals(store, country, w);
      |rows| > 0 && MonthTotal(rows, w.start.year, 1) == 0.0 ==>
      r == Failure(MissingBoundaryMonth(country, w.start.year, 1))
    ensures var rows := WindowRentals(store, country, w);
      |rows| > 0 && MonthTotal(rows, w.start.year, 1) != 0.0 && MonthTotal(rows, w.end.year, 12) == 0.0 ==>
      r == Failure(MissingBoundaryMonth(country, w.end.year, 12))
    ensures var rows := WindowRentals(store, country, w);
      r.Success? <==> |rows| > 0 && MonthTotal(rows, w.start.year, 1) != 0.0 && MonthTotal(rows, w.end.year, 12) != 0.0
    ensures r.Success? ==>
      var rows := WindowRentals(store, country, w);
      && |rows| > 0
      && r.value.startTotal == MonthTotal(rows, w.start.year, 1) != 0.0
      && r.value.endTotal == MonthTotal(rows, w.end.year, 12) != 0.0
      && r.value.currency == rows[0].currency
      && r.value.totalMonths == |MonthsCovered(rows)|
  {
    var loaded := WindowRentals(store, country, w);
    if |loaded| == 0 then Failure(NoDataFound(country))
    else
      var rows := YearsWithin(loaded, w);
      RefilterIsNoOp(store, country, w);
      var startTotal := MonthTotal(rows, w.start.year, 1);
      var endTotal := MonthTotal(rows, w.end.year, 12);
      if startTotal == 0.0 then Failure(MissingBoundaryMonth(country, w.start.year, 1))
      else if endTotal == 0.0 then Failure(MissingBoundaryMonth(country, w.end.year, 12))
      else Success(RentalSummary(startTotal, endTotal, rows[0].currency, |MonthsCovered(rows)|))
  }

  /** (year, month) order of inflation records. */
  predicate PeriodLe(a: InflationRecord, b: InflationRecord) {
    a.year < b.year || (a.year == b.year && a.month <= b.month)
  }

  predicate SortedByPeriod(s: seq<InflationRecord>) {
    forall i, j :: 0 <= i < j < |s| ==> PeriodLe(s[i], s[j])
  }

  function InsertByPeriod(x: InflationRecord, s: seq<InflationRecord>): (r: seq<InflationRecord>)
    requires SortedByPeriod(s)
    ensures SortedByPeriod(r)
    ensures multiset(r) == multiset(s) + multiset{x}
  {
    if |s| == 0 then [x]
    else if PeriodLe(x, s[0]) then [x] + s
    else
      var rest := InsertByPeriod(x, s[1..]);
      assert s == [s[0]] + s[1..];
      assert forall j :: 0 <= j < |rest| ==> PeriodLe(s[0], rest[j]) by {
        forall j | 0 <= j < |rest| ensures PeriodLe(s[0], rest[j]) {
          assert rest[j] in multiset(rest);
          if rest[j] != x {
            assert rest[j] in multiset(s[1..]);
            var k :| 0 <= k < |s[1..]| && s[1..][k] == rest[j];
            assert s[k + 1] == rest[j];
          }
        }
      }
      [s[0]] + rest
  }

  /** Records in ascending (year, month) order, a permutation of the input. */
  function SortByPeriod(s: seq<InflationRecord>): (r: seq<InflationRecord>)
    ensures SortedByPeriod(r)
    ensures multiset(r) == multiset(s)
  {
    if |s| == 0 then []
    else
      assert s == [s[0]] + s[1..];
      InsertByPeriod(s[0], SortByPeriod(s[1..]))
  }

  /** The rate column. */
  function Rates(s: seq<InflationRecord>): (r: seq<real>)
    ensures |r| == |s|
    ensures forall i :: 0 <= i < |s| ==> r[i] == s[i].rate
  {
    if |s| == 0 then [] else [s[0].rate] + Rates(s[1..])
  }

  /** The country's inflation records within the window's years, in stored order. */
  function WindowInflation(store: Store, country: string, w: Window): seq<InflationRecord> {
    LoadInflation(store.inflation, Some(country), Some(w.start.year), Some(w.end.year))
  }

  /** The window's monthly rates, ordered by (year, month). */
  function InflationRates(store: Store, country: string, w: Window): (rates: seq<real>)
    ensures |rates| == |WindowInflation(store, country, w)|
    ensures multiset(rates) == multiset(Rates(WindowInflation(store, country, w)))
    ensures var sorted := SortByPeriod(WindowInflation(store, country, w));
      forall i :: 0 <= i < |rates| ==> rates[i] == sorted[i].rate
  {
    var loaded := WindowInflation(store, country, w);
    var sorted := SortByPeriod(loaded);
    RatesPermutation(sorted, loaded);
    Rates(sorted)
  }

  lemma {:induction false} RatesAppend(a: seq<InflationRecord>, b: seq<InflationRecord>)
    ensures Rates(a + b) == Rates(a) + Rates(b)
  {
    if |a| > 0 {
      assert (a + b)[1..] == a[1..] + b;
      RatesAppend(a[1..], b);
    }
  }

  /** Permuting records permutes their rates. */
  lemma {:induction false} RatesPermutation(a: seq<InflationRecord>, b: seq<InflationRecord>)
    requires multiset(a) == multiset(b)
    ensures multiset(Rates(a)) == multiset(Rates(b))
    decreases |a|
  {
    if |a| == 0 {
      assert |b| == |multiset(b)| == 0;
    } else {
      var k := RemoveMatching(a, b);
      var rest := b[..k] + b[k + 1..];
      RatesPermutation(a[1..], rest);
      assert b == b[..k] + [b[k]] + b[k + 1..];
      RatesAppend(b[..k] + [b[k]], b[k + 1..]);
      RatesAppend(b[..k], [b[k]]);
      RatesAppend(b[..k], b[k + 1..]);
      assert Rates(a) == [a[0].rate] + Rates(a[1..]);
    }
  }

  /** The number of the country's buildings: for a non-empty code, the
      stored buildings carrying its upper-cased form. */
  function BuildingCount(store: Store, country: string): (n: int)
    ensures country != "" ==> n == CountWithCode(store.buildings, Upper(country))
  {
    var selected := LoadBuildings(store.buildings, Some(country));
    if country == "" then |selected|
    else
      CountOfSelection(store.buildings, Upper(country), selected);
      |selected|
  }

  /** A calculator error as an analysis error. */
  function LiftCalc<T>(r: Result<T, CalcError>): Result<T, AnalysisError>
  {
    match r
    case Success(v) => Success(v)
    case Failure(e) => Failure(CalculationFailed(e))
  }

  /** A schema error as an analysis error. */
  function LiftSchema<T>(r: Result<T, seq<Field>>): Result<T, AnalysisError>
  {
    match r
    case Success(v) => Success(v)
    case Failure(e) => Failure(InvalidResponse(e))
  }

  /** Nominal CAGR, cumulative inflation and real CAGR, as fractions. */
  datatype Rates3 = Rates3(nominal: real, cumulative: real, realCagr: real)

  /** The calculator's three results for one summary and rate list; the first
      calculator error is the analysis's error. */
  function Metrics(rental: RentalSummary, rates: seq<real>, years: int, root: (real, nat) -> real)
    : (r: Result<Rates3, AnalysisError>)
    ensures r.Success? <==>
      && Cagr(rental.startTotal, rental.endTotal, years, root).Success?
      && CumulativeInflation(rates).Success?
      && RealCagr(Cagr(rental.startTotal, rental.endTotal, years, root).value, CumulativeInflation(rates).value).Success?
    ensures r.Success? ==>
      && r.value.nominal == Cagr(rental.startTotal, rental.endTotal, years, root).value
      && r.value.cumulative == CumulativeInflation(rates).value
      && r.value.realCagr == RealCagr(r.value.nominal, r.value.cumulative).value
    ensures Cagr(rental.startTotal, rental.endTotal, years, root).Failure? ==>
      r == Failure(CalculationFailed(Cagr(rental.startTotal, rental.endTotal, years, root).error))
    ensures Cagr(rental.startTotal, rental.endTotal, years, root).Success? && rates == [] ==>
      r == Failure(CalculationFailed(EmptyRates))
    ensures Cagr(rental.startTotal, rental.endTotal, years, root).Success? && rates != [] && r.Failure? ==>
      r == Failure(CalculationFailed(InflationNotAboveMinusOne))
  {
    var nominal :- LiftCalc(Cagr(rental.startTotal, rental.endTotal, years, root));
    var cumulative :- LiftCalc(CumulativeInflation(rates));
    var realCagr :- LiftCalc(RealCagr(nominal, cumulative));
    Success(Rates3(nominal, cumulative, realCagr))
  }

  /** A decimal fraction as a percentage. */
  function Percent(fraction: real): real {
    fraction * 100.0
  }

  /** The response records, validated in the order the source builds them:
      rental income, then portfolio summary, then the response itself. */
  function Assemble(country: string, years: int, w: Window, rental: RentalSummary, m: Rates3, buildings: int)
    : (r: Result<AnalysisResponse, AnalysisError>)
    requires 0 <= w.start.year <= 9999 && 0 <= w.end.year <= 9999
    ensures r.Success? <==>
      && rental.startTotal >= 0.0 && rental.endTotal >= 0.0 && |rental.currency| == 3
      && buildings >= 0 && rental.totalMonths >= 0
      && |country| == 2 && IsAllowedYears(years)
    ensures r.Success? ==>
      && r.value.Valid()
      && r.value.countryCode == country
      && r.value.analysisPeriodYears == years
      && r.value.dateRange == DateRange(FormatYearMonth(w.start.year, 1), FormatYearMonth(w.end.year, 12))
      && r.value.rentalIncome == RentalIncome(rental.startTotal, rental.endTotal, rental.currency)
      && r.value.growthMetrics == GrowthMetrics(Percent(m.nominal), Percent(m.cumulative), Percent(m.realCagr))
      && r.value.portfolioSummary == PortfolioSummary(buildings, rental.totalMonths)
  {
    var dateRange := DateRange(FormatYearMonth(w.start.year, 1), FormatYearMonth(w.end.year, 12));
    var income :- LiftSchema(NewRentalIncome(rental.startTotal, rental.endTotal, rental.currency));
    var metrics := GrowthMetrics(Percent(m.nominal), Percent(m.cumulative), Percent(m.realCagr));
    var summary :- LiftSchema(NewPortfolioSummary(buildings, rental.totalMonths));
    LiftSchema(NewAnalysisResponse(country, years, dateRange, income, metrics, summary))
  }

  /** The analysis of an already upper-cased country code and a validated period. */
  function AnalyzeCountry(store: Store, country: string, years: int, root: (real, nat) -> real)
    : (r: Result<AnalysisResponse, AnalysisError>)
    ensures r.Success? ==>
      && r.value.Valid()
      && r.value.countryCode == country
      && r.value.analysisPeriodYears == years
  {
    var w :- PeriodDates(store, country, years);
    var rental :- AggregateRentalIncome(store, country, w);
    var m :- Metrics(rental, InflationRates(store, country, w), years, root);
    Assemble(country, years, w, rental, m, BuildingCount(store, country))
  }

  /** The whole analysis for one country and period: the period is checked
      before any data is looked at, then the country code is upper-cased. */
  function Analyze(store: Store, countryCode: string, years: int, root: (real, nat) -> real)
    : (r: Result<AnalysisResponse, AnalysisError>)
    ensures !IsAllowedYears(years) ==> r == Failure(InvalidYears(years))
    ensures r.Success? ==>
      && r.value.Valid()
      && r.value.countryCode == Upper(countryCode)
      && r.value.analysisPeriodYears == years
  {
    if !IsAllowedYears(years) then Failure(InvalidYears(years))
    else AnalyzeCountry(store, Upper(countryCode), years, root)
  }

  // ---------------------------------------------------------------------
  // Aggregates: sums, month sets and counts against reference definitions
  // ---------------------------------------------------------------------

  lemma {:induction false} TotalAppend(a: seq<RentalRecord>, b: seq<RentalRecord>)
    ensures Total(a + b) == Total(a) + Total(b)
  {
    if |a| > 0 {
      assert (a + b)[1..] == a[1..] + b;
      TotalAppend(a[1..], b);
    } else {
      assert a + b == b;
    }
  }

  /** A sum does not depend on the order of the rows. */
  lemma {:induction false} TotalPermutation(a: seq<RentalRecord>, b: seq<RentalRecord>)
    requires multiset(a) == multiset(b)
    ensures Total(a) == Total(b)
    decreases |a|
  {
    if |a| == 0 {
      assert |b| == |multiset(b)| == 0;
    } else {
      var k := RemoveMatching(a, b);
      TotalPermutation(a[1..], b[..k] + b[k + 1..]);
      assert b == b[..k] + [b[k]] + b[k + 1..];
      TotalAppend(b[..k] + [b[k]], b[k + 1..]);
      TotalAppend(b[..k], [b[k]]);
      TotalAppend(b[..k], b[k + 1..]);
    }
  }

  lemma {:induction false} TotalNonNegative(rows: seq<RentalRecord>)
    requires forall x :: x in rows ==> x.amount >= 0.0
    ensures Total(rows) >= 0.0
  {
    if |rows| > 0 {
      assert rows[0] in rows;
      TotalNonNegative(rows[1..]);
    }
  }

  /** Reference: the rent of one country in one (year, month), over a whole store. */
  function CountryMonthTotal(rentals: seq<RentalRecord>, country: string, year: int, month: int): real {
    Total(Filter(rentals, (x: RentalRecord) => x.countryCode == country && x.year == year && x.month == month))
  }

  /** Restricting to the window first changes no month total inside the window. */
  lemma WindowMonthTotal(rentals: seq<RentalRecord>, query: string, startYear: int, endYear: int, year: int, month: int)
    requires query != "" && startYear <= year <= endYear
    ensures MonthTotal(LoadRentals(rentals, Some(query), Some(startYear), Some(endYear)), year, month)
         == CountryMonthTotal(rentals, Upper(query), year, month)
  {
    var rows := LoadRentals(rentals, Some(query), Some(startYear), Some(endYear));
    var a := AtMonth(rows, year, month);
    var b := Filter(rentals, (x: RentalRecord) => x.countryCode == Upper(query) && x.year == year && x.month == month);
    forall x ensures multiset(a)[x] == multiset(b)[x] { }
    assert multiset(a) == multiset(b);
    TotalPermutation(a, b);
  }

  /** A non-zero month total has a row in that month. */
  lemma {:induction false} NonZeroTotalHasRow(rows: seq<RentalRecord>, year: int, month: int)
    requires MonthTotal(rows, year, month) != 0.0
    ensures exists x :: x in rows && x.year == year && x.month == month
  {
    var a := AtMonth(rows, year, month);
    assert |a| > 0;
    assert a[0] in a;
  }

  /** Reference: the months in which the country has rent within the window years. */
  function CountryWindowMonths(rentals: seq<RentalRecord>, country: string, startYear: int, endYear: int): set<(int, int)> {
    set x | x in rentals && x.countryCode == country && startYear <= x.year <= endYear :: (x.year, x.month)
  }

  lemma WindowMonths(rentals: seq<RentalRecord>, query: string, startYear: int, endYear: int)
    requires query != ""
    ensures MonthsCovered(LoadRentals(rentals, Some(query), Some(startYear), Some(endYear)))
         == CountryWindowMonths(rentals, Upper(query), startYear, endYear)
  {
  }

  /** The twelve months of one year, up to month `k`. */
  function MonthsOfYear(year: int, k: nat): (s: set<(int, int)>)
    requires k <= 12
    ensures |s| == k
    ensures forall p :: p in s <==> p.0 == year && 1 <= p.1 <= k
  {
    if k == 0 then {}
    else
      var rest := MonthsOfYear(year, k - 1);
      assert (year, k) !in rest;
      rest + {(year, k)}
  }

  /** All (year, month) pairs of the years `startYear` to `endYear`. */
  function MonthGrid(startYear: int, endYear: int): (s: set<(int, int)>)
    requires startYear <= endYear + 1
    ensures |s| == 12 * (endYear - startYear + 1)
    ensures forall p :: p in s <==> startYear <= p.0 <= endYear && 1 <= p.1 <= 12
    decreases endYear - startYear
  {
    if endYear < startYear then {}
    else
      var rest := MonthGrid(startYear, endYear - 1);
      var last := MonthsOfYear(endYear, 12);
      assert rest * last == {};
      rest + last
  }

  lemma SubsetCardinality<T>(a: set<T>, b: set<T>)
    requires a <= b
    ensures |a| <= |b|
  {
    assert b == a + (b - a);
  }

  /** Reference: the number of buildings carrying a country code. */
  function CountWithCode(buildings: seq<BuildingRecord>, country: string): nat {
    if |buildings| == 0 then 0
    else (if buildings[0].countryCode == country then 1 else 0) + CountWithCode(buildings[1..], country)
  }

  /** Any sequence holding exactly the country's buildings, with multiplicity, has the reference count as its length. */
  lemma {:induction false} CountOfSelection(buildings: seq<BuildingRecord>, country: string, r: seq<BuildingRecord>)
    requires forall x :: multiset(r)[x] == if x.countryCode == country then multiset(buildings)[x] else 0
    ensures |r| == CountWithCode(buildings, country)
    decreases |buildings|
  {
    if |buildings| == 0 {
      assert multiset(r) == multiset{};
    } else {
      var b := buildings[0];
      assert buildings == [b] + buildings[1..];
      if b.countryCode == country {
        assert multiset(r)[b] > 0;
        assert b in r;
        var k :| 0 <= k < |r| && r[k] == b;
        var rest := r[..k] + r[k + 1..];
        assert r == r[..k] + [b] + r[k + 1..];
        assert multiset(rest) == multiset(r) - multiset{b};
        CountOfSelection(buildings[1..], country, rest);
      } else {
        CountOfSelection(buildings[1..], country, r);
      }
    }
  }

  // ---------------------------------------------------------------------
  // Properties of the whole analysis
  // ---------------------------------------------------------------------

  /** A successful analysis passed every stage; the response holds their results. */
  lemma AnalyzeParts(store: Store, country: string, years: int, root: (real, nat) -> real)
    returns (w: Window, rental: RentalSummary, m: Rates3)
    requires AnalyzeCountry(store, country, years, root).Success?
    ensures PeriodDates(store, country, years) == Success(w)
    ensures AggregateRentalIncome(store, country, w) == Success(rental)
    ensures Metrics(rental, InflationRates(store, country, w), years, root) == Success(m)
    ensures var resp := AnalyzeCountry(store, country, years, root).value;
      && resp.countryCode == country
      && resp.analysisPeriodYears == years
      && resp.dateRange == DateRange(FormatYearMonth(w.start.year, 1), FormatYearMonth(w.end.year, 12))
      && resp.rentalIncome == RentalIncome(rental.startTotal, rental.endTotal, rental.currency)
      && resp.growthMetrics == GrowthMetrics(Percent(m.nominal), Percent(m.cumulative), Percent(m.realCagr))
      && resp.portfolioSummary == PortfolioSummary(BuildingCount(store, country), rental.totalMonths)
  {
    w := PeriodDates(store, country, years).value;
    rental := AggregateRentalIncome(store, country, w).value;
    m := Metrics(rental, InflationRates(store, country, w), years, root).value;
  }

  /** The country code is case-insensitive: the analysis only sees its upper-cased form. */
  lemma AnalyzeCaseInsensitive(store: Store, countryCode: string, years: int, root: (real, nat) -> real)
    ensures Analyze(store, countryCode, years, root) == Analyze(store, Upper(countryCode), years, root)
  {
    UpperIdempotent(countryCode);
  }

  /** A country without rentals is "not found", whatever the other tables hold. */
  lemma AnalyzeUnknownCountry(store: Store, countryCode: string, years: int, root: (real, nat) -> real)
    requires IsAllowedYears(years) && countryCode != ""
    requires forall x :: x in store.rentals ==> x.countryCode != Upper(countryCode)
    ensures Analyze(store, countryCode, years, root) == Failure(NoDataFound(Upper(countryCode)))
  {
    assert |Upper(countryCode)| == |countryCode|;
    UpperIdempotent(countryCode);
  }

  /** A window reaching before the first rental year is rejected, naming the available years. */
  lemma AnalyzeInsufficientHistory(
    store: Store, countryCode: string, years: int, root: (real, nat) -> real, dataStart: int, dataEnd: int)
    requires IsAllowedYears(years)
    requires GetDateRange(store.rentals, Some(Upper(countryCode))) == Success((dataStart, dataEnd))
    requires IsDateYear(dataEnd) && IsDateYear(FirstYear(dataEnd, years))
    requires FirstYear(dataEnd, years) < dataStart
    ensures Analyze(store, countryCode, years, root) == Failure(InsufficientData(years, dataStart, dataEnd))
  {
  }

  /** The reported window is the last `years` whole years of the country's data,
      and its "YYYY-MM" bounds are in order as strings. */
  lemma AnalyzeWindow(store: Store, countryCode: string, years: int, root: (real, nat) -> real)
    requires Analyze(store, countryCode, years, root).Success?
    ensures GetDateRange(store.rentals, Some(Upper(countryCode))).Success?
    ensures var (dataStart, dataEnd) := GetDateRange(store.rentals, Some(Upper(countryCode))).value;
      && dataStart <= FirstYear(dataEnd, years)
      && IsDateYear(FirstYear(dataEnd, years)) && IsDateYear(dataEnd)
      && Analyze(store, countryCode, years, root).value.dateRange
         == DateRange(FormatYearMonth(FirstYear(dataEnd, years), 1), FormatYearMonth(dataEnd, 12))
    ensures var range := Analyze(store, countryCode, years, root).value.dateRange;
      StrLess(range.startDate, range.endDate)
  {
    var country := Upper(countryCode);
    var w, rental, m := AnalyzeParts(store, country, years, root);
    FormatYearMonthOrder(w.start.year, 1, w.end.year, 12);
  }

  /** The boundary totals are the country's whole-store rent in January of the
      first window year and in December of the last, and both are positive. */
  lemma AnalyzeTotals(store: Store, countryCode: string, years: int, root: (real, nat) -> real)
    requires Analyze(store, countryCode, years, root).Success?
    ensures GetDateRange(store.rentals, Some(Upper(countryCode))).Success?
    ensures var dataEnd := GetDateRange(store.rentals, Some(Upper(countryCode))).value.1;
      var income := Analyze(store, countryCode, years, root).value.rentalIncome;
      && income.startPeriodTotal == CountryMonthTotal(store.rentals, Upper(countryCode), FirstYear(dataEnd, years), 1)
      && income.endPeriodTotal == CountryMonthTotal(store.rentals, Upper(countryCode), dataEnd, 12)
      && income.startPeriodTotal > 0.0
      && income.endPeriodTotal > 0.0
  {
    var country := Upper(countryCode);
    var w, rental, m := AnalyzeParts(store, country, years, root);
    UpperIdempotent(countryCode);
    assert |country| == 2;
    WindowMonthTotal(store.rentals, country, w.start.year, w.end.year, w.start.year, 1);
    WindowMonthTotal(store.rentals, country, w.start.year, w.end.year, w.end.year, 12);
  }

  lemma TwoDistinctMonths(months: set<(int, int)>, firstYear: int, lastYear: int)
    requires (firstYear, 1) in months && (lastYear, 12) in months
    ensures |months| >= 2
  {
    var boundary := {(firstYear, 1), (lastYear, 12)};
    assert |boundary| == 2;
    SubsetCardinality(boundary, months);
  }

  /** Rows within the years `startYear` to `endYear` cover at most all their months. */
  lemma MonthsWithinGrid(rows: seq<RentalRecord>, startYear: int, endYear: int)
    requires startYear <= endYear + 1
    requires forall x :: x in rows ==> startYear <= x.year <= endYear && ValidMonth(x.month)
    ensures |MonthsCovered(rows)| <= 12 * (endYear - startYear + 1)
  {
    var grid := MonthGrid(startYear, endYear);
    assert MonthsCovered(rows) <= grid;
    SubsetCardinality(MonthsCovered(rows), grid);
  }

  /** The aggregated month count lies between the two boundary months and the whole window. */
  lemma AggregateMonthBounds(store: Store, country: string, w: Window)
    requires AggregateRentalIncome(store, country, w).Success?
    requires w.start.year <= w.end.year + 1
    ensures AggregateRentalIncome(store, country, w).value.totalMonths >= 2
    ensures (forall x :: x in store.rentals ==> ValidMonth(x.month)) ==>
      AggregateRentalIncome(store, country, w).value.totalMonths <= 12 * (w.end.year - w.start.year + 1)
  {
    var rows := WindowRentals(store, country, w);
    NonZeroTotalHasRow(rows, w.start.year, 1);
    NonZeroTotalHasRow(rows, w.end.year, 12);
    var first :| first in rows && first.year == w.start.year && first.month == 1;
    var last :| last in rows && last.year == w.end.year && last.month == 12;
    TwoDistinctMonths(MonthsCovered(rows), w.start.year, w.end.year);
    if forall x :: x in store.rentals ==> ValidMonth(x.month) {
      MonthsWithinGrid(rows, w.start.year, w.end.year);
    }
  }

  /** The month count is the number of distinct months in which the country has
      rent within the window: at least the two boundary months, at most every
      month of the window, and exactly every month when none is missing. */
  lemma AnalyzeMonths(store: Store, countryCode: string, years: int, root: (real, nat) -> real)
    requires Analyze(store, countryCode, years, root).Success?
    ensures GetDateRange(store.rentals, Some(Upper(countryCode))).Success?
    ensures var dataEnd := GetDateRange(store.rentals, Some(Upper(countryCode))).value.1;
      var months := CountryWindowMonths(store.rentals, Upper(countryCode), FirstYear(dataEnd, years), dataEnd);
      var total := Analyze(store, countryCode, years, root).value.portfolioSummary.totalMonths;
      && total == |months|
      && total >= 2
      && ((forall x :: x in store.rentals ==> ValidMonth(x.month)) ==> total <= 12 * years)
      && ((forall x :: x in store.rentals ==> ValidMonth(x.month)) && MonthGrid(FirstYear(dataEnd, years), dataEnd) <= months
          ==> total == 12 * years)
  {
    var country := Upper(countryCode);
    var w, rental, m := AnalyzeParts(store, country, years, root);
    UpperIdempotent(countryCode);
    assert |country| == 2;
    WindowMonths(store.rentals, country, w.start.year, w.end.year);
    AggregateMonthBounds(store, country, w);
    var months := CountryWindowMonths(store.rentals, country, w.start.year, w.end.year);
    if (forall x :: x in store.rentals ==> ValidMonth(x.month)) && MonthGrid(w.start.year, w.end.year) <= months {
      SubsetCardinality(MonthGrid(w.start.year, w.end.year), months);
    }
  }

  /** The building count is the number of stored buildings carrying the country's code. */
  lemma AnalyzeBuildings(store: Store, countryCode: string, years: int, root: (real, nat) -> real)
    requires Analyze(store, countryCode, years, root).Success?
    ensures Analyze(store, countryCode, years, root).value.portfolioSummary.buildingsAnalyzed
         == CountWithCode(store.buildings, Upper(countryCode))
  {
    var country := Upper(countryCode);
    var w, rental, m := AnalyzeParts(store, country, years, root);
    UpperIdempotent(countryCode);
    assert |country| == 2;
    CountOfSelection(store.buildings, country, LoadBuildings(store.buildings, Some(country)));
  }

  /** The three metrics satisfy their defining identities; the nominal one
      holds whenever the root function is a true positive n-th root. */
  lemma MetricsIdentities(rental: RentalSummary, rates: seq<real>, years: int, root: (real, nat) -> real, m: Rates3)
    requires Metrics(rental, rates, years, root) == Success(m) && rental.endTotal != 0.0
    ensures years > 0
    ensures IsNthRoot(root) ==> Pow(1.0 + m.nominal, years) * rental.startTotal == rental.endTotal
    ensures 1.0 + m.cumulative == Compound(rates)
    ensures (1.0 + m.realCagr) * (1.0 + m.cumulative) == 1.0 + m.nominal
  {
    if IsNthRoot(root) {
      var start, end := rental.startTotal, rental.endTotal;
      var p := Pow(1.0 + m.nominal, years);
      assert p == end / start;
      assert p * start == end;
    }
  }

  /** Compounding the nominal CAGR (in percent) over `years` turns the start total into the end total. */
  predicate NominalGrowthHolds(resp: AnalysisResponse, years: int) {
    years >= 0
    && Pow(1.0 + resp.growthMetrics.nominalCagrPercent / 100.0, years) * resp.rentalIncome.startPeriodTotal
       == resp.rentalIncome.endPeriodTotal
  }

  /** Real growth compounded with inflation is nominal growth (all in percent). */
  predicate RealGrowthHolds(g: GrowthMetrics) {
    (1.0 + g.realCagrPercent / 100.0) * (1.0 + g.cumulativeInflationPercent / 100.0) == 1.0 + g.nominalCagrPercent / 100.0
  }

  lemma NominalInPercent(
    resp: AnalysisResponse, m: Rates3, years: int, root: (real, nat) -> real, rental: RentalSummary, rates: seq<real>)
    requires IsNthRoot(root)
    requires Metrics(rental, rates, years, root) == Success(m) && rental.endTotal != 0.0
    requires resp.growthMetrics.nominalCagrPercent == Percent(m.nominal)
    requires resp.rentalIncome.startPeriodTotal == rental.startTotal && resp.rentalIncome.endPeriodTotal == rental.endTotal
    ensures NominalGrowthHolds(resp, years)
  {
    MetricsIdentities(rental, rates, years, root, m);
    assert resp.growthMetrics.nominalCagrPercent / 100.0 == m.nominal;
  }

  lemma RealInPercent(g: GrowthMetrics, m: Rates3, years: int, root: (real, nat) -> real, rental: RentalSummary, rates: seq<real>)
    requires Metrics(rental, rates, years, root) == Success(m) && rental.endTotal != 0.0
    requires g == GrowthMetrics(Percent(m.nominal), Percent(m.cumulative), Percent(m.realCagr))
    ensures RealGrowthHolds(g)
  {
    MetricsIdentities(rental, rates, years, root, m);
    assert g.nominalCagrPercent / 100.0 == m.nominal;
    assert g.cumulativeInflationPercent / 100.0 == m.cumulative;
    assert g.realCagrPercent / 100.0 == m.realCagr;
  }

  /** Compounding the nominal CAGR (in percent) over the period turns the
      start total into the end total. */
  lemma AnalyzeNominalGrowth(store: Store, countryCode: string, years: int, root: (real, nat) -> real)
    requires IsNthRoot(root)
    requires Analyze(store, countryCode, years, root).Success?
    ensures NominalGrowthHolds(Analyze(store, countryCode, years, root).value, years)
  {
    var country := Upper(countryCode);
    var w, rental, m := AnalyzeParts(store, country, years, root);
    var resp := Analyze(store, countryCode, years, root).value;
    assert resp == AnalyzeCountry(store, country, years, root).value;
    NominalInPercent(resp, m, years, root, rental, InflationRates(store, country, w));
  }

  /** The cumulative inflation (in percent) compounds every stored monthly rate
      of the country within the window, in file order: the sort by month does
      not change it, and the window holds at least one rate. */
  lemma AnalyzeInflation(store: Store, countryCode: string, years: int, root: (real, nat) -> real)
    requires Analyze(store, countryCode, years, root).Success?
    ensures GetDateRange(store.rentals, Some(Upper(countryCode))).Success?
    ensures var dataEnd := GetDateRange(store.rentals, Some(Upper(countryCode))).value.1;
      var stored := LoadInflation(store.inflation, Some(Upper(countryCode)), Some(FirstYear(dataEnd, years)), Some(dataEnd));
      var g := Analyze(store, countryCode, years, root).value.growthMetrics;
      && |stored| > 0
      && 1.0 + g.cumulativeInflationPercent / 100.0 == Compound(Rates(stored))
  {
    var country := Upper(countryCode);
    var w, rental, m := AnalyzeParts(store, country, years, root);
    var rates := InflationRates(store, country, w);
    var dataEnd := GetDateRange(store.rentals, Some(country)).value.1;
    assert w.start.year == FirstYear(dataEnd, years) && w.end.year == dataEnd;
    var stored := LoadInflation(store.inflation, Some(country), Some(FirstYear(dataEnd, years)), Some(dataEnd));
    assert stored == WindowInflation(store, country, w);
    assert |rates| > 0;
    CompoundPermutation(rates, Rates(stored));
    assert 1.0 + m.cumulative == Compound(rates);
  }

  /** Real growth compounded with inflation is nominal growth, in percent. */
  lemma AnalyzeRealGrowth(store: Store, countryCode: string, years: int, root: (real, nat) -> real)
    requires Analyze(store, countryCode, years, root).Success?
    ensures RealGrowthHolds(Analyze(store, countryCode, years, root).value.growthMetrics)
  {
    var country := Upper(countryCode);
    var w, rental, m := AnalyzeParts(store, country, years, root);
    var resp := Analyze(store, countryCode, years, root).value;
    assert resp == AnalyzeCountry(store, country, years, root).value;
    RealInPercent(resp.growthMetrics, m, years, root, rental, InflationRates(store, country, w));
  }

  /** On valid data the window's years are calendar years, so a failing
      window is either a missing country or too short a history. */
  lemma PeriodDatesOnValidStore(store: Store, country: string, years: int)
    requires store.Valid() && IsAllowedYears(years)
    ensures PeriodDates(store, country, years).Failure? ==>
      PeriodDates(store, country, years).error.NoDataFound? || PeriodDates(store, country, years).error.InsufficientData?
  {
    if GetDateRange(store.rentals, Some(country)).Success? {
      var hi := GetDateRange(store.rentals, Some(country)).value.1;
      var x :| x in store.rentals && CountryMatches(x.countryCode, Some(country)) && x.year == hi;
      assert x.Valid();
    }
  }

  /** On valid data the boundary totals are positive, the currency is a
      three-letter code and a filtering country code has two letters. */
  lemma AggregateOnValidStore(store: Store, country: string, w: Window)
    requires store.Valid() && AggregateRentalIncome(store, country, w).Success?
    ensures var rental := AggregateRentalIncome(store, country, w).value;
      && rental.startTotal > 0.0 && rental.endTotal > 0.0
      && |rental.currency| == 3
      && (FiltersCountry(Some(country)) ==> |Upper(country)| == 2)
  {
    var rows := WindowRentals(store, country, w);
    TotalNonNegative(AtMonth(rows, w.start.year, 1));
    TotalNonNegative(AtMonth(rows, w.end.year, 12));
    assert rows[0] in rows;
    assert rows[0].Valid();
  }

  lemma WindowInflationIsStored(store: Store, country: string, w: Window)
    ensures forall x :: x in WindowInflation(store, country, w) ==> x in store.inflation
  {
  }

  /** Every rate of the window's list is the rate of a record in the window,
      so it keeps any lower bound all those records keep. */
  lemma WindowRatesAreStored(store: Store, country: string, w: Window, bound: real)
    requires forall x :: x in WindowInflation(store, country, w) ==> x.rate > bound
    ensures forall i :: 0 <= i < |InflationRates(store, country, w)| ==> InflationRates(store, country, w)[i] > bound
  {
    var loaded := WindowInflation(store, country, w);
    var sorted := SortByPeriod(loaded);
    var rates := InflationRates(store, country, w);
    forall i | 0 <= i < |rates| ensures rates[i] > bound {
      assert sorted[i] in multiset(sorted);
      assert sorted[i] in loaded;
    }
  }

  /** With positive boundary totals only the inflation rates can make the calculator fail. */
  lemma MetricsOnPositiveTotals(rental: RentalSummary, rates: seq<real>, years: int, root: (real, nat) -> real)
    requires rental.startTotal > 0.0 && rental.endTotal > 0.0 && years > 0
    ensures var m := Metrics(rental, rates, years, root);
      m.Failure? ==> m.error == CalculationFailed(EmptyRates) || m.error == CalculationFailed(InflationNotAboveMinusOne)
    ensures (forall i :: 0 <= i < |rates| ==> rates[i] > -1.0) && Metrics(rental, rates, years, root).Failure? ==>
      Metrics(rental, rates, years, root).error == CalculationFailed(EmptyRates)
  {
    if rates != [] && forall i :: 0 <= i < |rates| ==> rates[i] > -1.0 {
      CumulativeInflationAboveMinusOne(rates);
    }
  }

  /** After a successful aggregation on valid data, only the inflation
      inputs can make the calculator fail. */
  lemma MetricsOnValidStore(store: Store, country: string, years: int, root: (real, nat) -> real, w: Window)
    requires store.Valid() && IsAllowedYears(years)
    requires AggregateRentalIncome(store, country, w).Success?
    ensures var rental := AggregateRentalIncome(store, country, w).value;
      var m := Metrics(rental, InflationRates(store, country, w), years, root);
      && (m.Failure? ==> m.error == CalculationFailed(EmptyRates) || m.error == CalculationFailed(InflationNotAboveMinusOne))
      && ((forall x :: x in store.inflation ==> x.rate > -1.0) && m.Failure? ==> m.error == CalculationFailed(EmptyRates))
  {
    var rental := AggregateRentalIncome(store, country, w).value;
    AggregateOnValidStore(store, country, w);
    var rates := InflationRates(store, country, w);
    MetricsOnPositiveTotals(rental, rates, years, root);
    if forall x :: x in store.inflation ==> x.rate > -1.0 {
      WindowInflationIsStored(store, country, w);
      WindowRatesAreStored(store, country, w, -1.0);
    }
  }

  /** After a successful aggregation on valid data, the response always passes its schema. */
  lemma AssembleOnValidStore(store: Store, country: string, years: int, w: Window, m: Rates3)
    requires store.Valid() && IsAllowedYears(years)
    requires country != "" && Upper(country) == country
    requires 0 <= w.start.year <= 9999 && 0 <= w.end.year <= 9999
    requires AggregateRentalIncome(store, country, w).Success?
    ensures Assemble(country, years, w, AggregateRentalIncome(store, country, w).value, m, BuildingCount(store, country)).Success?
  {
    var rental := AggregateRentalIncome(store, country, w).value;
    AggregateOnValidStore(store, country, w);
    assert |country| == 2 && |rental.currency| == 3;
    assert rental.startTotal >= 0.0 && rental.endTotal >= 0.0 && rental.totalMonths >= 0;
    assert BuildingCount(store, country) >= 0;
  }

  /** The country-level analysis on valid data fails only for the documented reasons. */
  lemma AnalyzeCountryFailureKinds(store: Store, country: string, years: int, root: (real, nat) -> real)
    requires store.Valid() && IsAllowedYears(years)
    requires country != "" && Upper(country) == country
    ensures var r := AnalyzeCountry(store, country, years, root);
      || r.Success?
      || IsMissingData(r.error)
      || r.error == CalculationFailed(EmptyRates)
      || r.error == CalculationFailed(InflationNotAboveMinusOne)
    ensures (forall x :: x in store.inflation ==> x.rate > -1.0) ==>
      var r := AnalyzeCountry(store, country, years, root);
      r.Success? || IsMissingData(r.error) || r.error == CalculationFailed(EmptyRates)
  {
    var r := AnalyzeCountry(store, country, years, root);
    PeriodDatesOnValidStore(store, country, years);
    var period := PeriodDates(store, country, years);
    if period.Failure? {
      assert r == Failure(period.error);
      assert IsMissingData(r.error);
    } else {
      var w := period.value;
      var aggregate := AggregateRentalIncome(store, country, w);
      if aggregate.Failure? {
        assert r == Failure(aggregate.error);
        assert IsMissingData(r.error);
      } else {
        MetricsOnValidStore(store, country, years, root, w);
        var rental := aggregate.value;
        var m := Metrics(rental, InflationRates(store, country, w), years, root);
        if m.Failure? {
          assert r == Failure(m.error);
        } else {
          AssembleOnValidStore(store, country, years, w, m.value);
          assert r == Assemble(country, years, w, rental, m.value, BuildingCount(store, country));
        }
      }
    }
  }

  /** On a valid store and a non-empty country code, an analysis either
      succeeds or fails for one of the documented reasons: a period outside
      {1, 3, 5, 10}, missing data, no inflation data in the window,
      or a cumulative inflation of -100% or below; the last cannot happen when
      every stored rate is above -1. */
  lemma AnalyzeFailureKinds(store: Store, countryCode: string, years: int, root: (real, nat) -> real)
    requires store.Valid() && countryCode != ""
    ensures var r := Analyze(store, countryCode, years, root);
      || r.Success?
      || r.error == InvalidYears(years)
      || IsMissingData(r.error)
      || r.error == CalculationFailed(EmptyRates)
      || r.error == CalculationFailed(InflationNotAboveMinusOne)
    ensures (forall x :: x in store.inflation ==> x.rate > -1.0) ==>
      var r := Analyze(store, countryCode, years, root);
      r.Success? || r.error == InvalidYears(years) || IsMissingData(r.error) || r.error == CalculationFailed(EmptyRates)
  {
    if IsAllowedYears(years) {
      UpperIdempotent(countryCode);
      assert |Upper(countryCode)| == |countryCode|;
      AnalyzeCountryFailureKinds(store, Upper(countryCode), years, root);
    }
  }

  // ---------------------------------------------------------------------
  // When an analysis produces a response
  // ---------------------------------------------------------------------

  /** On valid data, a history reaching back to the window's first year gives the window. */
  lemma PeriodDatesSucceeds(store: Store, country: string, years: int, dataStart: int, dataEnd: int)
    requires store.Valid() && IsAllowedYears(years)
    requires GetDateRange(store.rentals, Some(country)) == Success((dataStart, dataEnd))
    requires dataStart <= FirstYear(dataEnd, years)
    ensures PeriodDates(store, country, years) == Success(Window(Date(FirstYear(dataEnd, years), 1, 1), Date(dataEnd, 12, 31)))
  {
    var first :| first in store.rentals && CountryMatches(first.countryCode, Some(country)) && first.year == dataStart;
    var last :| last in store.rentals && CountryMatches(last.countryCode, Some(country)) && last.year == dataEnd;
    assert first.Valid() && last.Valid();
    assert IsDateYear(dataEnd) && IsDateYear(FirstYear(dataEnd, years));
    var r := PeriodDates(store, country, years);
    assert r.Success?;
    assert r.value.start == Date(FirstYear(dataEnd, years), 1, 1) && r.value.end == Date(dataEnd, 12, 31);
  }

  /** Rent in both boundary months of the window makes the aggregation succeed. */
  lemma AggregateSucceeds(store: Store, country: string, w: Window)
    requires country != "" && Upper(country) == country
    requires w.start.year <= w.end.year
    requires CountryMonthTotal(store.rentals, country, w.start.year, 1) != 0.0
    requires CountryMonthTotal(store.rentals, country, w.end.year, 12) != 0.0
    ensures AggregateRentalIncome(store, country, w).Success?
  {
    var rows := WindowRentals(store, country, w);
    WindowMonthTotal(store.rentals, country, w.start.year, w.end.year, w.start.year, 1);
    WindowMonthTotal(store.rentals, country, w.start.year, w.end.year, w.end.year, 12);
    NonZeroTotalHasRow(rows, w.start.year, 1);
  }

  /** Positive totals, a positive period and non-empty rates above -1 make every calculator step succeed. */
  lemma MetricsSucceed(rental: RentalSummary, rates: seq<real>, years: int, root: (real, nat) -> real)
    requires rental.startTotal > 0.0 && rental.endTotal > 0.0 && years > 0
    requires |rates| > 0 && forall i :: 0 <= i < |rates| ==> rates[i] > -1.0
    ensures Metrics(rental, rates, years, root).Success?
  {
    CumulativeInflationAboveMinusOne(rates);
  }

  /** Complete data yields a response: on a valid store, a country with
      rentals, a history covering the whole window, rent in its January and
      December boundary months, and at least one inflation rate in the window,
      every rate above -1, is analysed successfully. */
  lemma AnalyzeSucceeds(
    store: Store, countryCode: string, years: int, root: (real, nat) -> real, dataStart: int, dataEnd: int)
    requires store.Valid() && IsAllowedYears(years) && countryCode != ""
    requires GetDateRange(store.rentals, Some(Upper(countryCode))) == Success((dataStart, dataEnd))
    requires dataStart <= FirstYear(dataEnd, years)
    requires CountryMonthTotal(store.rentals, Upper(countryCode), FirstYear(dataEnd, years), 1) != 0.0
    requires CountryMonthTotal(store.rentals, Upper(countryCode), dataEnd, 12) != 0.0
    requires var window := LoadInflation(store.inflation, Some(Upper(countryCode)), Some(FirstYear(dataEnd, years)), Some(dataEnd));
      |window| > 0 && forall x :: x in window ==> x.rate > -1.0
    ensures Analyze(store, countryCode, years, root).Success?
  {
    var country := Upper(countryCode);
    UpperIdempotent(countryCode);
    assert |country| == |countryCode|;
    PeriodDatesSucceeds(store, country, years, dataStart, dataEnd);
    var w := Window(Date(FirstYear(dataEnd, years), 1, 1), Date(dataEnd, 12, 31));
    AggregateSucceeds(store, country, w);
    var rental := AggregateRentalIncome(store, country, w).value;
    AggregateOnValidStore(store, country, w);
    var rates := InflationRates(store, country, w);
    WindowRatesAreStored(store, country, w, -1.0);
    MetricsSucceed(rental, rates, years, root);
    var m := Metrics(rental, rates, years, root).value;
    AssembleOnValidStore(store, country, years, w, m);
    assert AnalyzeCountry(store, country, years, root)
        == Assemble(country, years, w, rental, m, BuildingCount(store, country));
  }

  /** A one-year store with rent in January and December and one inflation rate. */
  function ExampleStore(): Store {
    Store(
      [RentalRecord("B1", "T1", "US", 1, 2024, 1000.0, "USD"), RentalRecord("B1", "T1", "US", 12, 2024, 1100.0, "USD")],
      [InflationRecord("US", 2024, 6, 0.002)],
      [BuildingRecord("B1", "US", "Tower", "Office", "Boston")])
  }

  lemma ExampleStoreValid()
    ensures ExampleStore().Valid()
  {
    assert IsUpperCased("US") && IsUpperCased("USD");
  }

  lemma ExampleDateRange()
    ensures GetDateRange(ExampleStore().rentals, Some("US")) == Success((2024, 2024))
  {
    var rentals := ExampleStore().rentals;
    assert Upper("US") == "US" by {
      UpperOfUpperCased("US");
    }
    assert rentals[0] in rentals && CountryMatches(rentals[0].countryCode, Some("US"));
    assert forall x :: x in rentals ==> x.year == 2024;
    var r := GetDateRange(rentals, Some("US"));
    assert r.Success?;
  }

  lemma ExampleBoundaryTotals()
    ensures CountryMonthTotal(ExampleStore().rentals, "US", 2024, 1) == 1000.0
    ensures CountryMonthTotal(ExampleStore().rentals, "US", 2024, 12) == 1100.0
  {
    var january, december := ExampleStore().rentals[0], ExampleStore().rentals[1];
    var a := Filter(ExampleStore().rentals, (x: RentalRecord) => x.countryCode == "US" && x.year == 2024 && x.month == 1);
    assert multiset(a) == multiset([january]);
    TotalPermutation(a, [january]);
    var b := Filter(ExampleStore().rentals, (x: RentalRecord) => x.countryCode == "US" && x.year == 2024 && x.month == 12);
    assert multiset(b) == multiset([december]);
    TotalPermutation(b, [december]);
  }

  lemma ExampleInflation()
    ensures var window := LoadInflation(ExampleStore().inflation, Some("US"), Some(2024), Some(2024));
      |window| > 0 && forall x :: x in window ==> x.rate > -1.0
  {
    assert ExampleStore().inflation[0] in LoadInflation(ExampleStore().inflation, Some("US"), Some(2024), Some(2024));
  }

  /** The lower-case request "us" for one year is answered on the example store. */
  lemma AnalyzeExample(root: (real, nat) -> real)
    ensures Analyze(ExampleStore(), "us", 1, root).Success?
  {
    assert Upper("us") == "US" by {
      assert "us"[1..] == "s" && "s"[1..] == "";
    }
    ExampleStoreValid();
    ExampleDateRange();
    ExampleBoundaryTotals();
    ExampleInflation();
    AnalyzeSucceeds(ExampleStore(), "us", 1, root, 2024, 2024);
  }
}
