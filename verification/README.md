# Rental income growth analysis — a Dafny model

This project models the core of `rental-analysis-service`. The service
answers one question for a country and a period of 1, 3, 5 or 10 years: how
fast did the portfolio's rental income grow, and how does that compare with
inflation?

The answer is built in these steps:

- The country code is upper-cased.
- The analysis window is the last `years` whole calendar years of the
  country's rental data. It runs from January of the first year to December
  of the latest.
- The rents collected in the two boundary months are summed.
- The monthly inflation rates in the window are ordered by (year, month).
- The calculator computes three figures:
  - the nominal compound annual growth rate (CAGR);
  - the cumulative inflation, compounded from the monthly rates;
  - the inflation-adjusted ("real") CAGR.
- A response records the window as `YYYY-MM` strings, the boundary totals,
  the three figures in percent, and two counts: buildings and distinct months.

Modules, one per source file:

| module | models |
|---|---|
| `Schemas` | The record and response schemas, with their field constraints and upper-casing. |
| `Validators` | The two request validators. |
| `Calculator` | The three formulas, over exact reals. |
| `DataLoader` | The in-memory record store, its filters, the year range and the country list. |
| `Dates` | The `YYYY-MM` rendering of the window, with its parser and its ordering. |
| `Analyzer` | The analysis itself, its stages, and the properties of the whole response. |

Support modules: `Wrappers` (`Result`, `Option`), `Text` (ASCII case,
lexicographic string order) and `Seqs` (filtering, subsequences).

`**` cannot be evaluated over Dafny's reals, so the fractional power is a
parameter `root: (real, nat) -> real`. Everything that depends on it is
stated under the hypothesis `Calculator.IsNthRoot(root)`: for every positive
`x` and `n`, `root(x, n)` is positive and its n-th power is `x`.
`Calculator.CagrRootIndependent` shows that any two such roots give the same
result.

The loader reads its CSV files without validating rows against the schemas.
`DataLoader.Store.Valid()` says that every stored row satisfies its schema. It
is an explicit hypothesis of the lemmas that need it, not a property of the
store.

Two points of the code deserve a note:

- **Zero boundary-month total.** The other missing-data errors say "No data
  found" or "Insufficient data". A zero total in a boundary month raises a
  differently worded message, "No rental data found ...". It is modelled as
  its own error, `MissingBoundaryMonth`.
- **Real-CAGR guard.** The guard's docstring and its code reject only
  cumulative inflation below -1. Exactly -1 therefore reaches a division by
  zero; see "Findings". The analyzer in this model uses the corrected guard,
  which rejects -1 as well (see "Left out").

## Model

All paths are under `rental-analysis-service/src/`.

| member | source | states |
|---|---|---|
| Schemas.NewRentalRecord | rental-analysis-service/src/models/schemas.py:9-30 | Construction succeeds exactly when the code has 2 characters, the month is 1..12, the year is 2000..2100, the amount is non-negative and the currency has 3 characters. On success, the two codes are upper-cased and the other fields are kept. On failure, exactly the violated fields are reported, and no other field. |
| Schemas.NewInflationRecord | rental-analysis-service/src/models/schemas.py:33-45 | Succeeds exactly when the code has 2 characters, the year is 2000..2100 and the month is 1..12. The code is upper-cased and the rate, which may be negative, is kept. Failures name exactly the violated fields. |
| Schemas.NewBuildingRecord | rental-analysis-service/src/models/schemas.py:48-61 | Succeeds exactly when the code has 2 characters, upper-casing it and keeping every other field; otherwise it reports only the country code. |
| Schemas.NewRentalIncome | rental-analysis-service/src/models/schemas.py:71-76 | Succeeds exactly when both totals are non-negative and the currency has 3 characters. Failures name exactly the violated fields. |
| Schemas.NewPortfolioSummary | rental-analysis-service/src/models/schemas.py:87-91 | Succeeds exactly when both counts are non-negative. Failures name exactly the violated fields. |
| Schemas.NewAnalysisResponse | rental-analysis-service/src/models/schemas.py:94-102 | Succeeds exactly when the code has 2 characters and the period is one of 1, 3, 5, 10. The result is valid and carries the given parts. |
| Text.UpperIdempotent | rental-analysis-service/src/models/schemas.py:20-24 | Upper-casing an upper-cased string changes nothing. |
| Validators.ValidateCountryCode | rental-analysis-service/src/utils/validators.py:12-38 | Each error corresponds exactly to its condition: empty, then a length other than 2 (reporting the length), then a non-letter. Success means exactly two letters, and the result is the code upper-cased: the same letters, case ignored. |
| Validators.ValidateCountryCodeIdempotent | rental-analysis-service/src/utils/validators.py:12-38 | Validating an accepted code's result accepts it again and returns it unchanged. |
| Validators.ValidateCountryCodeExamples | rental-analysis-service/src/utils/validators.py:12-38 | "gb" gives "GB"; "De" gives "DE"; "" is empty; "USA" has the wrong length, 3; "U1" is not letters. |
| Validators.ValidateYears | rental-analysis-service/src/utils/validators.py:41-61 | Accepts exactly 1, 3, 5 and 10, returning the value. Anything else is rejected with the offending value. |
| Calculator.Cagr | rental-analysis-service/src/services/calculator.py:10-37 | The checks run in order: start ≤ 0 fails first, then a negative end, then years ≤ 0. Success holds exactly when all three pass. An end of 0 gives exactly -1. For a true n-th root, the rate is above -1 and compounding it over the years gives end/start. |
| Calculator.CagrSign | rental-analysis-service/src/services/calculator.py:36 | The CAGR is positive, zero or negative exactly when the end value is above, equal to or below the start value. |
| Calculator.CagrOneYear | rental-analysis-service/src/services/calculator.py:36 | Over one year the CAGR is end/start - 1. |
| Calculator.CagrRootIndependent | rental-analysis-service/src/services/calculator.py:36 | Any two true n-th root functions give the same CAGR for every input. |
| Calculator.CalculatorExamples | rental-analysis-service/src/services/calculator.py:10-83 | Fixed inputs give the documented results and errors for each of the three formulas. Examples: flat growth gives 0; 1000 to 1100 over one year gives 0.1; a 100% loss gives -1; 8% nominal growth against 20% inflation gives -10% real growth. |
| Calculator.CumulativeInflation | rental-analysis-service/src/services/calculator.py:40-61 | Fails exactly on an empty rate list, with the empty-list error. |
| Calculator.CumulativeInflationLoop | rental-analysis-service/src/services/calculator.py:57-61 | The source's left-to-right accumulator loop computes exactly the product of (1 + rate) minus one. |
| Calculator.CompoundPermutation | rental-analysis-service/src/services/calculator.py:57-61 | The compounded product does not depend on the order of the rates. |
| Calculator.CumulativeInflationPermutation | rental-analysis-service/src/services/calculator.py:40-61 | Cumulative inflation is the same for any reordering of the rates. |
| Calculator.CumulativeInflationConcat | rental-analysis-service/src/services/calculator.py:40-61 | Over two consecutive non-empty stretches, the growth factors (1 + inflation) multiply. |
| Calculator.CumulativeInflationAllZero | rental-analysis-service/src/services/calculator.py:40-61 | Non-empty all-zero rates give exactly 0. |
| Calculator.CumulativeInflationSingle | rental-analysis-service/src/services/calculator.py:40-61 | A single rate is its own cumulative inflation. |
| Calculator.CumulativeInflationAboveMinusOne | rental-analysis-service/src/services/calculator.py:40-61 | Non-empty rates that are all above -1 compound to a value above -1. |
| Calculator.RealCagr | rental-analysis-service/src/services/calculator.py:64-83 | Corrected guard: fails exactly when inflation ≤ -1. Otherwise (1 + real) × (1 + inflation) = 1 + nominal. |
| Calculator.RealCagrAsWritten | rental-analysis-service/src/services/calculator.py:79-82 | The guard as written: below -1 is rejected, exactly -1 reaches the division and fails there, and above -1 it agrees with the corrected version. |
| Calculator.RealCagrAsWrittenAdmitsMinusOne | rental-analysis-service/src/services/calculator.py:79-82 | At inflation -1, the as-written version fails with division by zero; the corrected one rejects the input. |
| Calculator.RealCagrZeroInflation | rental-analysis-service/src/services/calculator.py:82 | With zero inflation, real CAGR equals nominal CAGR. |
| Calculator.RealCagrBelowNominal | rental-analysis-service/src/services/calculator.py:82 | When 1 + nominal is positive, real CAGR is below nominal exactly when inflation is positive. |
| DataLoader.Select | rental-analysis-service/src/services/data_loader.py:50-57 | Country, lower-year and upper-year filters together keep a subsequence of the rows. It contains exactly the matching rows, each as often as stored. |
| DataLoader.LoadRentals | rental-analysis-service/src/services/data_loader.py:25-59 | Keeps, in file order and with multiplicity, exactly the rentals whose code equals the upper-cased query and whose year lies within the given inclusive bounds. An absent or empty query does not filter by country. With no filters every row is returned, and an unknown country gives no rows. |
| DataLoader.LoadInflation | rental-analysis-service/src/services/data_loader.py:61-95 | Applies the same filters as for rentals, over the inflation rows. |
| DataLoader.LoadBuildings | rental-analysis-service/src/services/data_loader.py:97-118 | Keeps exactly the buildings matching the country query, in order and with multiplicity. |
| DataLoader.GetDateRange | rental-analysis-service/src/services/data_loader.py:130-142 | Fails exactly when no rental matches the query. Otherwise it gives (earliest, latest) year: every matching year lies between them, and both are attained. |
| DataLoader.AvailableCountries | rental-analysis-service/src/services/data_loader.py:120-128 | Lists every country that has a building, once each, in strictly ascending order, and nothing else. |
| DataLoader.AvailableCountriesOrderIndependent | rental-analysis-service/src/services/data_loader.py:120-128 | The list depends only on the set of countries, not on the order or repetition of the buildings. |
| Dates.FormatYearMonthRoundTrip | rental-analysis-service/src/services/analyzer.py:84-85 | Parsing the 7-character `YYYY-MM` rendering gives back the year and month. |
| Dates.FormatYearMonthOrder | rental-analysis-service/src/services/analyzer.py:84-85 | Two renderings compare as strings exactly as their (year, month) pairs compare chronologically. |
| Analyzer.PeriodDates | rental-analysis-service/src/services/analyzer.py:103-138 | A country with no rentals gives "no data found". A window exists exactly when the country has rentals, its first and latest years are calendar years, and the history reaches back to the first year. The window runs from Jan 1 of latest - years + 1 to Dec 31 of the latest year; it spans `years` years and is in order. Too short a history reports the available years. |
| Analyzer.PeriodDatesSucceeds | rental-analysis-service/src/services/analyzer.py:119-138 | On valid data, a history (earliest, latest) with earliest ≤ latest - years + 1 always yields the window Jan 1 of latest - years + 1 to Dec 31 of latest. |
| Analyzer.RefilterIsNoOp | rental-analysis-service/src/services/analyzer.py:163-166 | Filtering the loaded rows to the window's years again keeps all of them, in order. |
| Analyzer.AggregateRentalIncome | rental-analysis-service/src/services/analyzer.py:140-197 | "No data found" is returned exactly when the window holds no rentals. Otherwise a zero January total of the first year is reported first, naming that month; a zero December total of the last year is reported only when January is non-zero. Success holds exactly when the window has rows and both totals are non-zero. On success: the start total is the January sum of the first year and the end total the December sum of the last, both non-zero; the currency is the first row's; the month count is the number of distinct (year, month) pairs. |
| Analyzer.AggregateMonthBounds | rental-analysis-service/src/services/analyzer.py:189-190 | The month count is at least 2. With valid months, it is at most 12 per window year. |
| Analyzer.SortByPeriod | rental-analysis-service/src/services/analyzer.py:218-219 | The result is ordered by (year, month) and is a permutation of the input. |
| Analyzer.InflationRates | rental-analysis-service/src/services/analyzer.py:199-224 | One rate per loaded record, in (year, month) order, forming a permutation of the loaded records' rates. |
| Analyzer.RatesPermutation | rental-analysis-service/src/services/analyzer.py:219-222 | Permuting records permutes their rates. |
| Analyzer.Metrics | rental-analysis-service/src/services/analyzer.py:61-74 | Succeeds exactly when all three calculator steps succeed, and then holds their values. The first failure is propagated unchanged: a CAGR error first, then an empty rate list, then an inflation at or below -1. |
| Analyzer.MetricsIdentities | rental-analysis-service/src/services/analyzer.py:61-74 | The three figures satisfy their defining identities. Compounding the nominal rate maps start to end (for a true root). 1 + cumulative is the product of (1 + rate). (1 + real)(1 + cumulative) = 1 + nominal. |
| Analyzer.Assemble | rental-analysis-service/src/services/analyzer.py:79-101 | Succeeds exactly when every response field constraint holds. Every field is as given, the dates are rendered `YYYY-MM`, and the three figures are in percent. |
| Analyzer.Analyze | rental-analysis-service/src/services/analyzer.py:32-101 | A period outside {1, 3, 5, 10} is rejected before anything else. A successful response is valid and carries the upper-cased code and the period. |
| Analyzer.AggregateSucceeds | rental-analysis-service/src/services/analyzer.py:154-197 | Rent in the country's January of the first window year and December of the last makes the aggregation succeed. |
| Analyzer.MetricsSucceed | rental-analysis-service/src/services/analyzer.py:61-74 | Positive totals, a positive period and a non-empty list of rates above -1 make all three calculator steps succeed. |
| Analyzer.AnalyzeSucceeds | rental-analysis-service/src/services/analyzer.py:32-101 | Complete data yields a response. The conditions: a valid store, an allowed period, a non-empty code whose country has rentals, a history covering the window, non-zero January and December boundary totals, and at least one inflation rate in the window, all above -1. |
| Analyzer.AnalyzeExample | rental-analysis-service/src/services/analyzer.py:32-101 | A one-year store with January and December rent and one inflation rate answers the lower-case request "us" for one year. |
| Analyzer.AnalyzeCaseInsensitive | rental-analysis-service/src/services/analyzer.py:50 | The analysis of a code equals that of its upper-cased form. |
| Analyzer.AnalyzeUnknownCountry | rental-analysis-service/src/services/analyzer.py:118-124 | A country with no rentals fails with "no data found", whatever the other tables hold. |
| Analyzer.AnalyzeInsufficientHistory | rental-analysis-service/src/services/analyzer.py:131-136 | A window starting before the earliest rental year fails with the insufficient-data error, naming the period and the available years. |
| Analyzer.AnalyzeWindow | rental-analysis-service/src/services/analyzer.py:126-129 | The reported range is (latest - years + 1)-01 to latest-12, and that first year is no earlier than the earliest data year. As strings, the start sorts before the end. |
| Analyzer.AnalyzeTotals | rental-analysis-service/src/services/analyzer.py:168-174 | The boundary totals equal the country's January and December rent over the whole store, and both are positive. |
| Analyzer.AnalyzeMonths | rental-analysis-service/src/services/analyzer.py:189-190 | The month count is the number of distinct months with rent in the window, at least 2. With valid months it is at most 12 × years, and exactly 12 × years when no month is missing. |
| Analyzer.BuildingCount | rental-analysis-service/src/services/analyzer.py:226-236 | For a non-empty code, the count equals the reference count of stored buildings carrying the upper-cased code. |
| Analyzer.AnalyzeBuildings | rental-analysis-service/src/services/analyzer.py:226-236 | The building count is the number of stored buildings carrying the country's code. |
| Analyzer.AnalyzeNominalGrowth | rental-analysis-service/src/services/analyzer.py:62-66 | For a true root, the start total compounded at the reported nominal percentage over the period equals the end total. |
| Analyzer.AnalyzeInflation | rental-analysis-service/src/services/analyzer.py:58-70 | The window holds at least one stored rate. 1 + cumulative% / 100 is the product of (1 + rate) over the window's stored rates, in file order; the sort does not change it. |
| Analyzer.AnalyzeRealGrowth | rental-analysis-service/src/services/analyzer.py:72-74 | The reported percentages satisfy (1 + real%/100)(1 + inflation%/100) = 1 + nominal%/100. |
| Analyzer.AnalyzeFailureKinds | rental-analysis-service/src/services/analyzer.py:32-101 | On a valid store and a non-empty code, the result is one of: success, a bad period, missing data, no inflation data, or inflation at or below -100%. The last cannot occur when every stored rate is above -1. |

## Left out

- The HTTP layer (`api/main.py`) is not part of this model. It maps errors to status codes by message text. `MissingBoundaryMonth`'s message lacks "No data found", so it is reported as a bad request rather than "not found".
- Reading the CSV files, their file-not-found errors and the data-directory check in the loader's constructor are I/O. The store is a value holding the three record sequences in file order.
- `format_percentage` (services/calculator.py:86-97) formats for display only.
- Floating point: all amounts and rates are exact reals, so rounding, NaN and infinities are not modelled. The fractional power is the `root` parameter.
- Calculator.Cagr: the nominal growth identity is proved only for a `root` that is a true n-th root, which floating-point `**` only approximates.
- Upper-casing and the letter test are ASCII-only; Python's `str.upper` and `str.isalpha` are Unicode-aware.
- The validators' `isinstance` checks, and a Python `bool` or `float` passed as `years`, cannot arise with typed Dafny arguments.
- Pydantic machinery (coercion, serialisation, error messages) is reduced to the declared field constraints and the order of the reported fields.
- Window years outside 1..9999 are modelled as `InvalidDate`. Python's `date()` raises there; valid data cannot reach it.
- Dates.FormatYearMonth: always zero-pads the year to four digits. `strftime("%Y")` may not pad years below 1000, which valid data (2000..2100) never reaches.
- Analyzer.Metrics: uses the corrected real-CAGR guard. A window whose rates compound to exactly -1 gives `CalculationFailed(InflationNotAboveMinusOne)` here. In the source it raises `ZeroDivisionError`, which the HTTP layer reports as an internal error. The as-written behaviour is `Calculator.RealCagrAsWritten`; see "Findings".
- Analyzer.SortByPeriod: the source's pandas sort does not promise a tie order. The model's sort is stable. Only the rates' multiset and their (year, month) order are stated, and the cumulative inflation does not depend on tie order.
- DataLoader.GetDateRange: in the source, an empty selection makes `int()` of a NaN minimum raise. The model reports `NoRentalRows`, which the analyzer turns into "no data found" exactly as the source's `except` does.

## Findings

| source | as written | input that shows it | evidently intended | confidence | as-written member | corrected member |
|---|---|---|---|---|---|---|
| rental-analysis-service/src/services/calculator.py:79-82 | The guard rejects only cumulative inflation below -1, so exactly -1 reaches `(1 + nominal) / (1 + cumulative)` and divides by zero. | nominal 0.05, cumulative -1.0 | Reject every value at which the formula is undefined, i.e. at or below -1, with the calculator's own `ValueError`. As written, -1 escapes as an unhandled `ZeroDivisionError`. | not executed | Calculator.RealCagrAsWritten, Calculator.RealCagrAsWrittenAdmitsMinusOne | Calculator.RealCagr |
