/** Record schemas: the three stored record kinds and the pieces of the
    analysis response, each with the field constraints its schema declares.
    Construction checks every constraint and reports every violated field,
    in declaration order; country and currency codes are upper-cased on
    construction of a stored record. */
module Schemas {
  import opened Wrappers
  import opened Text

  /** Field names whose constraints a construction can violate. */
  datatype Field =
    | CountryCode | Month | Year | RentalAmount | Currency
    | StartPeriodTotal | EndPeriodTotal
    | BuildingsAnalyzed | TotalMonths | AnalysisPeriodYears

  /** The analysis periods a response may carry. */
  predicate IsAllowedYears(years: int) {
    years == 1 || years == 3 || years == 5 || years == 10
  }

  predicate ValidMonth(month: int) { 1 <= month <= 12 }

  predicate ValidYear(year: int) { 2000 <= year <= 2100 }

  /** One monthly rent payment of one tenant in one building. */
  datatype RentalRecord = RentalRecord(
    buildingId: string,
    tenantId: string,
    countryCode: string,
    month: int,
    year: int,
    amount: real,
    currency: string)
  {
    predicate Valid() {
      && |countryCode| == 2 && IsUpperCased(countryCode)
      && ValidMonth(month)
      && ValidYear(year)
      && amount >= 0.0
      && |currency| == 3 && IsUpperCased(currency)
    }
  }

  /** One monthly inflation rate of one country; the rate may be negative. */
  datatype InflationRecord = InflationRecord(
    countryCode: string,
    year: int,
    month: int,
    rate: real)
  {
    predicate Valid() {
      |countryCode| == 2 && IsUpperCased(countryCode) && ValidYear(year) && ValidMonth(month)
    }
  }

  /** One building of the portfolio. */
  datatype BuildingRecord = BuildingRecord(
    buildingId: string,
    countryCode: string,
    name: string,
    propertyType: string,
    city: string)
  {
    predicate Valid() {
      |countryCode| == 2 && IsUpperCased(countryCode)
    }
  }

  /** Both bounds are formatted "YYYY-MM". */
  datatype DateRange = DateRange(startDate: string, endDate: string)

  datatype RentalIncome = RentalIncome(startPeriodTotal: real, endPeriodTotal: real, currency: string)
  {
    predicate Valid() {
      startPeriodTotal >= 0.0 && endPeriodTotal >= 0.0 && |currency| == 3
    }
  }

  /** Percentages: the calculator's decimal results times 100. */
  datatype GrowthMetrics = GrowthMetrics(
    nominalCagrPercent: real,
    cumulativeInflationPercent: real,
    realCagrPercent: real)

  datatype PortfolioSummary = PortfolioSummary(buildingsAnalyzed: int, totalMonths: int)
  {
    predicate Valid() {
      buildingsAnalyzed >= 0 && totalMonths >= 0
    }
  }

  datatype AnalysisResponse = AnalysisResponse(
    countryCode: string,
    analysisPeriodYears: int,
    dateRange: DateRange,
    rentalIncome: RentalIncome,
    growthMetrics: GrowthMetrics,
    portfolioSummary: PortfolioSummary)
  {
    predicate Valid() {
      && |countryCode| == 2
      && IsAllowedYears(analysisPeriodYears)
      && rentalIncome.Valid()
      && portfolioSummary.Valid()
    }
  }

  /** `[f]` when the constraint fails, `[]` when it holds. */
  function Check(ok: bool, f: Field): seq<Field> {
    if ok then [] else [f]
  }

  function NewRentalRecord(
    buildingId: string, tenantId: string, countryCode: string,
    month: int, year: int, amount: real, currency: string): (r: Result<RentalRecord, seq<Field>>)
    ensures r.Success? <==>
      |countryCode| == 2 && ValidMonth(month) && ValidYear(year) && amount >= 0.0 && |currency| == 3
    ensures r.Success? ==>
      && r.value.Valid()
      && r.value.countryCode == Upper(countryCode) && r.value.currency == Upper(currency)
      && r.value.buildingId == buildingId && r.value.tenantId == tenantId
      && r.value.month == month && r.value.year == year && r.value.amount == amount
    ensures r.Failure? ==>
      && (CountryCode in r.error <==> |countryCode| != 2)
      && (Month in r.error <==> !ValidMonth(month))
      && (Year in r.error <==> !ValidYear(year))
      && (RentalAmount in r.error <==> amount < 0.0)
      && (Currency in r.error <==> |currency| != 3)
    ensures r.Failure? ==>
      forall f :: f in r.error ==> f == CountryCode || f == Month || f == Year || f == RentalAmount || f == Currency
  {
    var errors := Check(|countryCode| == 2, CountryCode) + Check(ValidMonth(month), Month)
      + Check(ValidYear(year), Year) + Check(amount >= 0.0, RentalAmount) + Check(|currency| == 3, Currency);
    if errors == [] then
      Success(RentalRecord(buildingId, tenantId, Upper(countryCode), month, year, amount, Upper(currency)))
    else Failure(errors)
  }

  function NewInflationRecord(countryCode: string, year: int, month: int, rate: real): (r: Result<InflationRecord, seq<Field>>)
    ensures r.Success? <==> |countryCode| == 2 && ValidYear(year) && ValidMonth(month)
    ensures r.Success? ==>
      r.value.Valid() && r.value.countryCode == Upper(countryCode)
      && r.value.year == year && r.value.month == month && r.value.rate == rate
    ensures r.Failure? ==>
      && (CountryCode in r.error <==> |countryCode| != 2)
      && (Year in r.error <==> !ValidYear(year))
      && (Month in r.error <==> !ValidMonth(month))
    ensures r.Failure? ==> forall f :: f in r.error ==> f == CountryCode || f == Year || f == Month
  {
    var errors := Check(|countryCode| == 2, CountryCode) + Check(ValidYear(year), Year) + Check(ValidMonth(month), Month);
    if errors == [] then Success(InflationRecord(Upper(countryCode), year, month, rate)) else Failure(errors)
  }

  function NewBuildingRecord(buildingId: string, countryCode: string, name: string, propertyType: string, city: string)
    : (r: Result<BuildingRecord, seq<Field>>)
    ensures r.Success? <==> |countryCode| == 2
    ensures r.Success? ==>
      r.value.Valid() && r.value.countryCode == Upper(countryCode) && r.value.buildingId == buildingId
      && r.value.name == name && r.value.propertyType == propertyType && r.value.city == city
    ensures r.Failure? ==> r.error == [CountryCode]
  {
    if |countryCode| == 2 then Success(BuildingRecord(buildingId, Upper(countryCode), name, propertyType, city))
    else Failure([CountryCode])
  }

  function NewRentalIncome(startTotal: real, endTotal: real, currency: string): (r: Result<RentalIncome, seq<Field>>)
    ensures r.Success? <==> startTotal >= 0.0 && endTotal >= 0.0 && |currency| == 3
    ensures r.Success? ==> r.value.Valid() && r.value == RentalIncome(startTotal, endTotal, currency)
    ensures r.Failure? ==>
      && (StartPeriodTotal in r.error <==> startTotal < 0.0)
      && (EndPeriodTotal in r.error <==> endTotal < 0.0)
      && (Currency in r.error <==> |currency| != 3)
    ensures r.Failure? ==> forall f :: f in r.error ==> f == StartPeriodTotal || f == EndPeriodTotal || f == Currency
  {
    var errors := Check(startTotal >= 0.0, StartPeriodTotal) + Check(endTotal >= 0.0, EndPeriodTotal)
      + Check(|currency| == 3, Currency);
    if errors == [] then Success(RentalIncome(startTotal, endTotal, currency)) else Failure(errors)
  }

  function NewPortfolioSummary(buildings: int, months: int): (r: Result<PortfolioSummary, seq<Field>>)
    ensures r.Success? <==> buildings >= 0 && months >= 0
    ensures r.Success? ==> r.value.Valid() && r.value == PortfolioSummary(buildings, months)
    ensures r.Failure? ==>
      (BuildingsAnalyzed in r.error <==> buildings < 0) && (TotalMonths in r.error <==> months < 0)
    ensures r.Failure? ==> forall f :: f in r.error ==> f == BuildingsAnalyzed || f == TotalMonths
  {
    var errors := Check(buildings >= 0, BuildingsAnalyzed) + Check(months >= 0, TotalMonths);
    if errors == [] then Success(PortfolioSummary(buildings, months)) else Failure(errors)
  }

  /** Assembles a response from already-built parts; only the top-level
      fields are checked here, the parts were checked when they were built. */
  function NewAnalysisResponse(
    countryCode: string, years: int, dateRange: DateRange, income: RentalIncome,
    metrics: GrowthMetrics, summary: PortfolioSummary): (r: Result<AnalysisResponse, seq<Field>>)
    requires income.Valid() && summary.Valid()
    ensures r.Success? <==> |countryCode| == 2 && IsAllowedYears(years)
    ensures r.Success? ==>
      r.value.Valid() && r.value == AnalysisResponse(countryCode, years, dateRange, income, metrics, summary)
    ensures r.Failure? ==>
      (CountryCode in r.error <==> |countryCode| != 2)
      && (AnalysisPeriodYears in r.error <==> !IsAllowedYears(years))
    ensures r.Failure? ==> forall f :: f in r.error ==> f == CountryCode || f == AnalysisPeriodYears
  {
    var errors := Check(|countryCode| == 2, CountryCode) + Check(IsAllowedYears(years), AnalysisPeriodYears);
    if errors == [] then Success(AnalysisResponse(countryCode, years, dateRange, income, metrics, summary))
    else Failure(errors)
  }
}
