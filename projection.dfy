/**
 * ScenarioProjector: the per-scenario projection that the app runs when the
 * simulation is launched. Base seasons are scaled by the scenario's occupancy
 * and price factors, year-1 revenue and costs give the year-1 EBITDA, and a
 * year loop grows EBITDA geometrically, looks up the loan schedule, floors the
 * taxable income at zero, derives CFADS, the equity cash flow (FCFE) with the
 * exit sale in the last year, and the DSCR; the IRR of the equity cash flows
 * closes the scenario. The sidebar values are the parameters.
 */
module Projection {
  import opened Numeric
  import opened Pricing
  import opened Revenue
  import opened Amortization
  import opened Irr

  /** The occupancy, price and cost multipliers of one scenario (Base, Optimiste, Pessimiste). */
  datatype ScenarioFactors = ScenarioFactors(occFactor: real, priceFactor: real, costFactor: real)

  /** One season as entered in the app, before a scenario scales it. */
  datatype BaseSeason = BaseSeason(
    name: string,
    days: int,
    occupancyBase: map<string, real>,
    pricingBase: map<string, SeasonPricing>)

  /** The sidebar's financial assumptions. */
  datatype Assumptions = Assumptions(
    baseFixedCosts: real,
    variableCostRate: real,
    taxRate: real,
    amortizableShare: real,
    deprecYears: int,
    totalInvestment: real,
    debtRatio: real,
    interestRate: real,
    loanYears: int,
    horizonYears: int,
    growthRate: real,
    exitMultiple: real,
    exitCostRate: real)

  /** The loan figures of one projection year. */
  datatype DebtLine = DebtLine(interest: real, principal: real, remaining: real, service: real)

  /** Every quantity the year loop derives for one year. */
  datatype YearAccounts = YearAccounts(
    ebitda: real,
    debt: DebtLine,
    depreciation: real,
    ebit: real,
    taxable: real,
    tax: real,
    netIncome: real,
    cfads: real,
    netSale: real,
    fcfe: real)

  /** One row of the DSCR table. */
  datatype DscrRow = DscrRow(
    year: int,
    ebitda: real,
    cfads: real,
    debtService: real,
    dscr: Option<real>,
    interest: real,
    principal: real,
    remainingDebt: real)

  datatype ScenarioResult = ScenarioResult(
    results: RevenueResult,
    revenue: real,
    fixedCostsEffective: real,
    variableCostsEffective: real,
    totalCosts: real,
    ebitdaYear1: real,
    cashflows: seq<real>,
    irr: Option<real>,
    dscrRows: seq<DscrRow>,
    params: ScenarioFactors)

  /** The tolerance and iteration cap `compute_irr` is called with. */
  const IrrTolerance: real := 0.000001
  const IrrMaxIter: int := 1000

  // ---------------------------------------------------------------------------
  // Scenario seasons
  // ---------------------------------------------------------------------------

  /** A room type's occupancy under a scenario: the base times the factor, capped at 1. */
  function ScenarioOccupancy(occBase: real, occFactor: real): real {
    Min(1.0, occBase * occFactor)
  }

  /** A base season under a scenario: occupancy scaled and capped at 1, prices scaled, shares kept. */
  function ScaleSeason(b: BaseSeason, f: ScenarioFactors): Season {
    Season(b.name, b.days,
           map rt | rt in b.occupancyBase :: ScenarioOccupancy(b.occupancyBase[rt], f.occFactor),
           map rt | rt in b.pricingBase :: b.pricingBase[rt].ScalePrices(f.priceFactor))
  }

  function ScaledSeasons(base: seq<BaseSeason>, f: ScenarioFactors): seq<Season> {
    seq(|base|, i requires 0 <= i < |base| => ScaleSeason(base[i], f))
  }

  /**
   * A scaled occupancy never exceeds 1; below the cap it is the base times the
   * factor, and it is non-negative when both are.
   */
  lemma ScaledOccupancy(b: BaseSeason, f: ScenarioFactors, rt: string)
    requires rt in b.occupancyBase
    ensures rt in ScaleSeason(b, f).occupancy
    ensures ScaleSeason(b, f).occupancy[rt] <= 1.0
    ensures b.occupancyBase[rt] * f.occFactor <= 1.0 ==>
              ScaleSeason(b, f).occupancy[rt] == b.occupancyBase[rt] * f.occFactor
    ensures b.occupancyBase[rt] >= 0.0 && f.occFactor >= 0.0 ==> ScaleSeason(b, f).occupancy[rt] >= 0.0
  {
    assert ScaleSeason(b, f).occupancy[rt] == ScenarioOccupancy(b.occupancyBase[rt], f.occFactor);
  }

  /** Under a scenario, each room type's blended rate is the base rate times the price factor. */
  lemma ScaledRate(b: BaseSeason, f: ScenarioFactors, rt: string)
    requires rt in b.pricingBase
    ensures rt in ScaleSeason(b, f).pricing
    ensures ScaleSeason(b, f).pricing[rt].TotalShare() == b.pricingBase[rt].TotalShare()
    ensures EquivalentNightlyRate(ScaleSeason(b, f).pricing[rt])
              == f.priceFactor * EquivalentNightlyRate(b.pricingBase[rt])
  {
    ScalingPricesScalesRate(b.pricingBase[rt], f.priceFactor);
  }

  /** Scaling keeps each season's name, length and the room types it knows. */
  lemma ScaledSeasonsShape(base: seq<BaseSeason>, f: ScenarioFactors)
    ensures |ScaledSeasons(base, f)| == |base|
    ensures forall i :: 0 <= i < |base| ==>
              && ScaledSeasons(base, f)[i].name == base[i].name
              && ScaledSeasons(base, f)[i].days == base[i].days
              && ScaledSeasons(base, f)[i].occupancy.Keys == base[i].occupancyBase.Keys
              && ScaledSeasons(base, f)[i].pricing.Keys == base[i].pricingBase.Keys
  {
  }

  // ---------------------------------------------------------------------------
  // One projection year
  // ---------------------------------------------------------------------------

  /** Year t's loan figures: the schedule's row t inside the loan, nothing but the leftover balance after it. */
  function DebtAt(schedule: seq<AmortizationRow>, t: int): DebtLine {
    if 1 <= t <= |schedule| then
      var row := schedule[t - 1];
      DebtLine(row.interest, row.principal, row.remaining, row.payment)
    else
      DebtLine(0.0, 0.0, if schedule != [] then schedule[|schedule| - 1].remaining else 0.0, 0.0)
  }

  /** EBITDA of year t (t >= 1): the year-1 figure grown geometrically. */
  function EbitdaAt(ebitdaYear1: real, growthRate: real, t: int): real
    requires t >= 1
  {
    ebitdaYear1 * Pow(1.0 + growthRate, t - 1)
  }

  /** The sale proceeds net of transaction costs and of the debt still owed, received in the horizon year only. */
  function NetSale(a: Assumptions, ebitda: real, remainingDebt: real, t: int): real {
    if t == a.horizonYears then
      var exitValue := ebitda * a.exitMultiple;
      exitValue - exitValue * a.exitCostRate - remainingDebt
    else 0.0
  }

  lemma NetSaleInHorizonYear(a: Assumptions, ebitda: real, remainingDebt: real)
    ensures NetSale(a, ebitda, remainingDebt, a.horizonYears)
              == ebitda * a.exitMultiple - ebitda * a.exitMultiple * a.exitCostRate - remainingDebt
  {
  }

  /** The tax on a year's EBIT after interest, floored at zero. */
  function TaxOn(ebit: real, interest: real, taxRate: real): real {
    Max(0.0, ebit - interest) * taxRate
  }

  /** The year loop's body for year t (t >= 1). */
  function Accounts(a: Assumptions, schedule: seq<AmortizationRow>, depreciation: real,
                    ebitdaYear1: real, t: int): YearAccounts
    requires t >= 1
  {
    var ebitda := EbitdaAt(ebitdaYear1, a.growthRate, t);
    var debt := DebtAt(schedule, t);
    var ebit := ebitda - depreciation;
    var taxable := Max(0.0, ebit - debt.interest);
    var tax := TaxOn(ebit, debt.interest, a.taxRate);
    var netIncome := ebit - debt.interest - tax;
    var cfads := ebitda - tax;
    var netSale := NetSale(a, ebitda, debt.remaining, t);
    YearAccounts(ebitda, debt, depreciation, ebit, taxable, tax, netIncome, cfads, netSale,
                 netIncome + depreciation - debt.principal + netSale)
  }

  function RowOf(acc: YearAccounts, t: int): DscrRow {
    DscrRow(t, acc.ebitda, acc.cfads, acc.debt.service,
            if acc.debt.service > 0.0 then Some(acc.cfads / acc.debt.service) else None,
            acc.debt.interest, acc.debt.principal, acc.debt.remaining)
  }

  /** The number of projected years: `range(1, horizon_years + 1)` is empty below 1. */
  function Horizon(a: Assumptions): nat {
    if a.horizonYears > 0 then a.horizonYears else 0
  }

  /** The equity cash flows: the equity outlay in year 0, then one FCFE per year of the horizon. */
  function Cashflows(a: Assumptions, schedule: seq<AmortizationRow>, depreciation: real,
                     ebitdaYear1: real, equity: real): seq<real>
  {
    [-equity] + seq(Horizon(a),
                    i requires 0 <= i => Accounts(a, schedule, depreciation, ebitdaYear1, i + 1).fcfe)
  }

  function DscrRows(a: Assumptions, schedule: seq<AmortizationRow>, depreciation: real,
                    ebitdaYear1: real): seq<DscrRow>
  {
    seq(Horizon(a),
        i requires 0 <= i => RowOf(Accounts(a, schedule, depreciation, ebitdaYear1, i + 1), i + 1))
  }

  /** Year-1 revenue, costs and EBITDA of a scenario. */
  datatype YearOne = YearOne(revenue: real, fixedCosts: real, variableCosts: real, totalCosts: real, ebitda: real)

  function YearOneFigures(revenue: real, a: Assumptions, f: ScenarioFactors): YearOne {
    var fixedCosts := a.baseFixedCosts * f.costFactor;
    var variableCosts := revenue * a.variableCostRate * f.costFactor;
    var totalCosts := fixedCosts + variableCosts;
    YearOne(revenue, fixedCosts, variableCosts, totalCosts, revenue - totalCosts)
  }

  /** Everything one scenario produces. */
  function Outcome(rooms: seq<RoomType>, base: seq<BaseSeason>, a: Assumptions, f: ScenarioFactors,
                   schedule: seq<AmortizationRow>, depreciation: real, equity: real): ScenarioResult
  {
    var seasons := ScaledSeasons(base, f);
    var results := RevenueResult(PerSeason(rooms, seasons), TotalRevenue(rooms, seasons));
    var y1 := YearOneFigures(results.totalRevenue, a, f);
    var cashflows := Cashflows(a, schedule, depreciation, y1.ebitda, equity);
    ScenarioResult(results, y1.revenue, y1.fixedCosts, y1.variableCosts, y1.totalCosts, y1.ebitda,
                   cashflows, IrrOf(cashflows, IrrTolerance, IrrMaxIter),
                   DscrRows(a, schedule, depreciation, y1.ebitda), f)
  }

  /** Outcome assembled from its parts. */
  lemma OutcomeFromParts(rooms: seq<RoomType>, base: seq<BaseSeason>, a: Assumptions, f: ScenarioFactors,
                         schedule: seq<AmortizationRow>, depreciation: real, equity: real,
                         results: RevenueResult, y1: YearOne, cashflows: seq<real>, rows: seq<DscrRow>)
    requires results == RevenueResult(PerSeason(rooms, ScaledSeasons(base, f)), TotalRevenue(rooms, ScaledSeasons(base, f)))
    requires y1 == YearOneFigures(results.totalRevenue, a, f)
    requires cashflows == Cashflows(a, schedule, depreciation, y1.ebitda, equity)
    requires rows == DscrRows(a, schedule, depreciation, y1.ebitda)
    ensures Outcome(rooms, base, a, f, schedule, depreciation, equity)
              == ScenarioResult(results, y1.revenue, y1.fixedCosts, y1.variableCosts, y1.totalCosts, y1.ebitda,
                                cashflows, IrrOf(cashflows, IrrTolerance, IrrMaxIter), rows, f)
  {
  }

  // ---------------------------------------------------------------------------
  // The projection loops
  // ---------------------------------------------------------------------------

  /** The season-building loop: one scaled season per base season, in order. */
  method BuildSeasons(base: seq<BaseSeason>, f: ScenarioFactors) returns (seasons: seq<Season>)
    ensures seasons == ScaledSeasons(base, f)
  {
    seasons := [];
    var i := 0;
    while i < |base|
      invariant 0 <= i <= |base|
      invariant |seasons| == i
      invariant forall j :: 0 <= j < i ==> seasons[j] == ScaleSeason(base[j], f)
    {
      var b := base[i];
      var occupancy := map rt | rt in b.occupancyBase :: ScenarioOccupancy(b.occupancyBase[rt], f.occFactor);
      var pricing := map rt | rt in b.pricingBase :: b.pricingBase[rt].ScalePrices(f.priceFactor);
      seasons := seasons + [Season(b.name, b.days, occupancy, pricing)];
      i := i + 1;
    }
  }

  /** Year t's accounts, given the figures the loop body computes for it. */
  lemma AccountsFromFigures(a: Assumptions, schedule: seq<AmortizationRow>, depreciation: real, ebitdaYear1: real,
                            year: int, ebitda: real, line: DebtLine, tax: real, netIncome: real, cfads: real,
                            netSale: real, fcfe: real)
    requires year >= 1
    requires ebitda == ebitdaYear1 * Pow(1.0 + a.growthRate, year - 1)
    requires line == DebtAt(schedule, year)
    requires tax == Max(0.0, ebitda - depreciation - line.interest) * a.taxRate
    requires netIncome == ebitda - depreciation - line.interest - tax && cfads == ebitda - tax
    requires netSale == NetSale(a, ebitda, line.remaining, year)
    requires fcfe == netIncome + depreciation - line.principal + netSale
    ensures Accounts(a, schedule, depreciation, ebitdaYear1, year)
              == YearAccounts(ebitda, line, depreciation, ebitda - depreciation, Max(0.0, ebitda - depreciation - line.interest),
                              tax, netIncome, cfads, netSale, fcfe)
  {
  }

  /** The sale in the horizon year: the exit value less the transaction costs and the debt still owed. */
  method ExitProceeds(a: Assumptions, ebitda: real, remainingDebt: real) returns (netSale: real)
    ensures netSale == NetSale(a, ebitda, remainingDebt, a.horizonYears)
  {
    var exitValue := ebitda * a.exitMultiple;
    var exitCosts := exitValue * a.exitCostRate;
    netSale := exitValue - exitCosts - remainingDebt;
    NetSaleInHorizonYear(a, ebitda, remainingDebt);
  }

  /** One pass of the year loop: year t's equity cash flow and DSCR row. */
  method ProjectYear(a: Assumptions, schedule: seq<AmortizationRow>, depreciation: real,
                     ebitdaYear1: real, year: int)
    returns (fcfe: real, row: DscrRow)
    requires year >= 1
    ensures fcfe == Accounts(a, schedule, depreciation, ebitdaYear1, year).fcfe
    ensures row == RowOf(Accounts(a, schedule, depreciation, ebitdaYear1, year), year)
  {
    var ebitda := ebitdaYear1 * Pow(1.0 + a.growthRate, year - 1);
    var interest, principal, remainingDebt, debtService;
    if 1 <= year <= |schedule| {
      var sched := schedule[year - 1];
      interest, principal, remainingDebt, debtService := sched.interest, sched.principal, sched.remaining, sched.payment;
    } else {
      interest, principal, debtService := 0.0, 0.0, 0.0;
      remainingDebt := if schedule != [] then schedule[|schedule| - 1].remaining else 0.0;
    }
    var ebit := ebitda - depreciation;
    var taxable := Max(0.0, ebit - interest);
    var tax := taxable * a.taxRate;
    var netIncome := ebit - interest - tax;
    var cfads := ebitda - tax;
    fcfe := netIncome + depreciation - principal;
    ghost var sale := 0.0;
    if year == a.horizonYears {
      var netSale := ExitProceeds(a, ebitda, remainingDebt);
      sale := netSale;
      fcfe := fcfe + netSale;
    }
    var dscr: Option<real>;
    if debtService > 0.0 {
      dscr := Some(cfads / debtService);
    } else {
      dscr := None;
    }
    row := DscrRow(year, ebitda, cfads, debtService, dscr, interest, principal, remainingDebt);
    AccountsFromFigures(a, schedule, depreciation, ebitdaYear1, year, ebitda,
                        DebtLine(interest, principal, remainingDebt, debtService), tax, netIncome, cfads, sale, fcfe);
  }

  /**
   * The year loop: starts the cash flows with the equity outlay, then appends
   * each year's FCFE and DSCR row.
   */
  method ProjectYears(a: Assumptions, schedule: seq<AmortizationRow>, depreciation: real,
                      ebitdaYear1: real, equity: real)
    returns (cashflows: seq<real>, rows: seq<DscrRow>)
    ensures cashflows == Cashflows(a, schedule, depreciation, ebitdaYear1, equity)
    ensures rows == DscrRows(a, schedule, depreciation, ebitdaYear1)
  {
    cashflows := [-equity];
    rows := [];
    var year := 1;
    while year <= a.horizonYears
      invariant 1 <= year <= Horizon(a) + 1
      invariant |cashflows| == year && cashflows[0] == -equity
      invariant forall t :: 1 <= t < year ==>
                  cashflows[t] == Accounts(a, schedule, depreciation, ebitdaYear1, t).fcfe
      invariant |rows| == year - 1
      invariant forall t :: 1 <= t < year ==>
                  rows[t - 1] == RowOf(Accounts(a, schedule, depreciation, ebitdaYear1, t), t)
    {
      var fcfe, row := ProjectYear(a, schedule, depreciation, ebitdaYear1, year);
      cashflows := cashflows + [fcfe];
      rows := rows + [row];
      year := year + 1;
    }
    assert year == Horizon(a) + 1;
  }

  lemma YearOneFromCosts(revenue: real, a: Assumptions, f: ScenarioFactors,
                         variableBase: real, fixedCosts: real, variableCosts: real, totalCosts: real, ebitda: real)
    requires variableBase == revenue * a.variableCostRate
    requires fixedCosts == a.baseFixedCosts * f.costFactor && variableCosts == variableBase * f.costFactor
    requires totalCosts == fixedCosts + variableCosts && ebitda == revenue - totalCosts
    ensures YearOne(revenue, fixedCosts, variableCosts, totalCosts, ebitda) == YearOneFigures(revenue, a, f)
  {
  }

  /** The body of the scenario loop: builds the scenario's seasons, then projects it year by year. */
  method ProjectScenario(rooms: seq<RoomType>, base: seq<BaseSeason>, a: Assumptions, f: ScenarioFactors,
                         schedule: seq<AmortizationRow>, depreciation: real, equity: real)
    returns (res: ScenarioResult)
    ensures res == Outcome(rooms, base, a, f, schedule, depreciation, equity)
  {
    var seasons := BuildSeasons(base, f);
    var results := SimulateAnnualRevenue(rooms, seasons);
    var revenue := results.totalRevenue;

    var variableCostsBase := revenue * a.variableCostRate;
    var fixedCosts := a.baseFixedCosts * f.costFactor;
    var variableCosts := variableCostsBase * f.costFactor;
    var totalCosts := fixedCosts + variableCosts;
    var ebitdaYear1 := revenue - totalCosts;
    YearOneFromCosts(revenue, a, f, variableCostsBase, fixedCosts, variableCosts, totalCosts, ebitdaYear1);

    var cashflows, rows := ProjectYears(a, schedule, depreciation, ebitdaYear1, equity);
    var irr := ComputeIrr(cashflows, IrrTolerance, IrrMaxIter);
    OutcomeFromParts(rooms, base, a, f, schedule, depreciation, equity, results,
                     YearOne(revenue, fixedCosts, variableCosts, totalCosts, ebitdaYear1), cashflows, rows);
    res := ScenarioResult(results, revenue, fixedCosts, variableCosts, totalCosts, ebitdaYear1,
                          cashflows, irr, rows, f);
  }

  /** The depreciation charged every year: the amortizable part of the investment spread over its life. */
  function AnnualDepreciation(a: Assumptions): real
    requires a.deprecYears != 0
  {
    a.totalInvestment * a.amortizableShare / a.deprecYears as real
  }

  function EquityAmount(a: Assumptions): real {
    a.totalInvestment * (1.0 - a.debtRatio)
  }

  function DebtAmount(a: Assumptions): real {
    a.totalInvestment * a.debtRatio
  }

  function LoanSchedule(a: Assumptions): seq<AmortizationRow> {
    Schedule(DebtAmount(a), a.interestRate, a.loanYears)
  }

  /**
   * The simulation: the loan schedule and depreciation are computed once and
   * shared, then each scenario is projected in the order given.
   */
  method RunScenarios(rooms: seq<RoomType>, base: seq<BaseSeason>, a: Assumptions,
                      scenarios: seq<(string, ScenarioFactors)>)
    returns (results: seq<(string, ScenarioResult)>)
    requires a.deprecYears != 0
    ensures |results| == |scenarios|
    ensures forall i :: 0 <= i < |scenarios| ==>
              results[i] == (scenarios[i].0,
                             Outcome(rooms, base, a, scenarios[i].1, LoanSchedule(a), AnnualDepreciation(a), EquityAmount(a)))
  {
    var debtAmount := a.totalInvestment * a.debtRatio;
    var equityAmount := a.totalInvestment * (1.0 - a.debtRatio);
    var schedule := BuildAmortizationSchedule(debtAmount, a.interestRate, a.loanYears);
    var amortizableBase := a.totalInvestment * a.amortizableShare;
    var depreciation := amortizableBase / a.deprecYears as real;
    assert debtAmount == DebtAmount(a);
    assert depreciation == AnnualDepreciation(a);
    assert equityAmount == EquityAmount(a);
    results := [];
    var i := 0;
    while i < |scenarios|
      invariant 0 <= i <= |scenarios|
      invariant |results| == i
      invariant forall j :: 0 <= j < i ==>
                  results[j] == (scenarios[j].0,
                                 Outcome(rooms, base, a, scenarios[j].1, LoanSchedule(a), AnnualDepreciation(a),
                                         EquityAmount(a)))
    {
      var res := ProjectScenario(rooms, base, a, scenarios[i].1, schedule, depreciation, equityAmount);
      results := results + [(scenarios[i].0, res)];
      i := i + 1;
    }
  }

  // ---------------------------------------------------------------------------
  // What the projection guarantees
  // ---------------------------------------------------------------------------

  /** Year-1 costs are the cost factor applied to fixed plus variable costs; EBITDA is what revenue leaves. */
  lemma YearOneCosts(revenue: real, a: Assumptions, f: ScenarioFactors)
    ensures YearOneFigures(revenue, a, f).totalCosts
              == f.costFactor * (a.baseFixedCosts + revenue * a.variableCostRate)
    ensures YearOneFigures(revenue, a, f).ebitda
              == revenue * (1.0 - a.variableCostRate * f.costFactor) - a.baseFixedCosts * f.costFactor
  {
  }

  /**
   * The cash-flow series has one entry more than the horizon: the equity
   * outlay first, then year t's FCFE at index t; the DSCR table has one row
   * per year, numbered from 1.
   */
  lemma CashflowSeries(a: Assumptions, schedule: seq<AmortizationRow>, depreciation: real,
                       ebitdaYear1: real, equity: real)
    ensures a.horizonYears >= 1 ==> |Cashflows(a, schedule, depreciation, ebitdaYear1, equity)| == a.horizonYears + 1
    ensures a.horizonYears < 1 ==> Cashflows(a, schedule, depreciation, ebitdaYear1, equity) == [-equity]
    ensures Cashflows(a, schedule, depreciation, ebitdaYear1, equity)[0] == -equity
    ensures forall t :: 1 <= t <= a.horizonYears ==>
              Cashflows(a, schedule, depreciation, ebitdaYear1, equity)[t]
                == Accounts(a, schedule, depreciation, ebitdaYear1, t).fcfe
    ensures |DscrRows(a, schedule, depreciation, ebitdaYear1)| == Horizon(a)
    ensures forall i :: 0 <= i < |DscrRows(a, schedule, depreciation, ebitdaYear1)| ==>
              DscrRows(a, schedule, depreciation, ebitdaYear1)[i].year == i + 1
  {
  }

  /** EBITDA starts at the year-1 figure and grows by the growth rate every year. */
  lemma EbitdaGrowth(ebitdaYear1: real, growthRate: real, t: int)
    requires t >= 1
    ensures EbitdaAt(ebitdaYear1, growthRate, 1) == ebitdaYear1
    ensures EbitdaAt(ebitdaYear1, growthRate, t + 1) == EbitdaAt(ebitdaYear1, growthRate, t) * (1.0 + growthRate)
  {
    var g := 1.0 + growthRate;
    var p := Pow(g, t - 1);
    assert Pow(g, t) == g * p;
    assert ebitdaYear1 * (g * p) == (ebitdaYear1 * p) * g;
  }

  /**
   * Inside the loan term a year pays the schedule's interest and principal,
   * whose sum is the debt service; once the loan has run its term nothing is
   * paid and, computed exactly, no debt remains.
   */
  lemma DebtByYear(debt: real, rate: real, years: int, t: int)
    ensures 1 <= t <= |Schedule(debt, rate, years)| ==>
              && DebtAt(Schedule(debt, rate, years), t).service
                   == DebtAt(Schedule(debt, rate, years), t).interest + DebtAt(Schedule(debt, rate, years), t).principal
              && DebtAt(Schedule(debt, rate, years), t).remaining >= 0.0
    ensures !(1 <= t <= |Schedule(debt, rate, years)|) ==> DebtAt(Schedule(debt, rate, years), t) == DebtLine(0.0, 0.0, 0.0, 0.0)
  {
    var s := Schedule(debt, rate, years);
    ScheduleShape(debt, rate, years);
    if !NoLoan(debt, rate, years) {
      ScheduleRepaysDebt(debt, rate, years);
      if 1 <= t <= |s| {
        assert RowFollows(s[t - 1], BalanceBefore(debt, s, t - 1), rate);
      }
    }
  }

  /** Taxable income is floored at zero, and the tax is then non-negative. */
  lemma TaxFloor(a: Assumptions, schedule: seq<AmortizationRow>, depreciation: real, ebitdaYear1: real, t: int)
    requires t >= 1
    ensures Accounts(a, schedule, depreciation, ebitdaYear1, t).taxable >= 0.0
    ensures Accounts(a, schedule, depreciation, ebitdaYear1, t).taxable
              >= Accounts(a, schedule, depreciation, ebitdaYear1, t).ebit
                 - Accounts(a, schedule, depreciation, ebitdaYear1, t).debt.interest
    ensures Accounts(a, schedule, depreciation, ebitdaYear1, t).ebit
              <= Accounts(a, schedule, depreciation, ebitdaYear1, t).debt.interest
            ==> Accounts(a, schedule, depreciation, ebitdaYear1, t).tax == 0.0
    ensures a.taxRate >= 0.0 ==> Accounts(a, schedule, depreciation, ebitdaYear1, t).tax >= 0.0
  {
    var acc := Accounts(a, schedule, depreciation, ebitdaYear1, t);
    if a.taxRate >= 0.0 {
      assert acc.tax == acc.taxable * a.taxRate;
    }
  }

  /**
   * The equity cash flow is what is left of CFADS after the debt service, plus
   * the net sale proceeds, which only the horizon year receives. The
   * depreciation added back to net income cancels the one charged in EBIT.
   */
  lemma FcfeIsCfadsAfterDebtService(debt: real, rate: real, years: int, a: Assumptions,
                                    depreciation: real, ebitdaYear1: real, t: int)
    requires t >= 1
    ensures var acc := Accounts(a, Schedule(debt, rate, years), depreciation, ebitdaYear1, t);
            acc.fcfe == acc.cfads - acc.debt.service + acc.netSale
    ensures t != a.horizonYears ==> Accounts(a, Schedule(debt, rate, years), depreciation, ebitdaYear1, t).netSale == 0.0
  {
    DebtByYear(debt, rate, years, t);
  }

  /** After a loan no longer than `t` years, computed exactly, no debt remains in year t. */
  lemma NoDebtAfterTerm(debt: real, rate: real, years: int, t: int)
    requires t >= 1 && years <= t
    ensures DebtAt(Schedule(debt, rate, years), t).remaining == 0.0
  {
    DebtByYear(debt, rate, years, t);
    ScheduleShape(debt, rate, years);
    if !NoLoan(debt, rate, years) && t == years {
      ScheduleRepaysDebt(debt, rate, years);
    }
  }

  /**
   * A loan no longer than the horizon is repaid by the exit: the net sale is
   * the exit value less the transaction costs, with no debt to settle.
   */
  lemma ExitIsDebtFree(debt: real, rate: real, years: int, a: Assumptions, depreciation: real, ebitdaYear1: real)
    requires a.horizonYears >= 1 && years <= a.horizonYears
    ensures Accounts(a, Schedule(debt, rate, years), depreciation, ebitdaYear1, a.horizonYears).debt.remaining == 0.0
    ensures var acc := Accounts(a, Schedule(debt, rate, years), depreciation, ebitdaYear1, a.horizonYears);
            acc.netSale == acc.ebitda * a.exitMultiple - acc.ebitda * a.exitMultiple * a.exitCostRate
  {
    var s := Schedule(debt, rate, years);
    var t := a.horizonYears;
    NoDebtAfterTerm(debt, rate, years, t);
    var acc := Accounts(a, s, depreciation, ebitdaYear1, t);
    assert acc.debt == DebtAt(s, t);
    assert acc.netSale == NetSale(a, acc.ebitda, acc.debt.remaining, t);
    NetSaleInHorizonYear(a, acc.ebitda, 0.0);
  }

  /**
   * The DSCR is undefined exactly when there is no debt service; when
   * defined it is at least 1 exactly when CFADS covers the debt service,
   * which before the horizon year means a non-negative equity cash flow.
   */
  lemma DscrCoverage(debt: real, rate: real, years: int, a: Assumptions, depreciation: real, ebitdaYear1: real, t: int)
    requires t >= 1
    ensures var acc := Accounts(a, Schedule(debt, rate, years), depreciation, ebitdaYear1, t);
            && (RowOf(acc, t).dscr.None? <==> acc.debt.service <= 0.0)
            && (RowOf(acc, t).dscr.Some? ==> (RowOf(acc, t).dscr.value >= 1.0 <==> acc.cfads >= acc.debt.service))
            && (RowOf(acc, t).dscr.Some? && t != a.horizonYears ==> (RowOf(acc, t).dscr.value >= 1.0 <==> acc.fcfe >= 0.0))
  {
    var acc := Accounts(a, Schedule(debt, rate, years), depreciation, ebitdaYear1, t);
    FcfeIsCfadsAfterDebtService(debt, rate, years, a, depreciation, ebitdaYear1, t);
    if acc.debt.service > 0.0 {
      CoverageRatio(acc.cfads, acc.debt.service);
    }
  }

  lemma CoverageRatio(cfads: real, service: real)
    requires service > 0.0
    ensures cfads / service >= 1.0 <==> cfads >= service
  {
    if cfads >= service {
      assert cfads / service >= service / service;
    } else {
      assert cfads / service < service / service;
    }
  }

  /** A scenario has no IRR exactly when its equity cash flows never change sign. */
  lemma ScenarioIrr(rooms: seq<RoomType>, base: seq<BaseSeason>, a: Assumptions, f: ScenarioFactors,
                    schedule: seq<AmortizationRow>, depreciation: real, equity: real)
    ensures Outcome(rooms, base, a, f, schedule, depreciation, equity).irr.None? <==>
              NoSignChange(Outcome(rooms, base, a, f, schedule, depreciation, equity).cashflows)
    ensures Outcome(rooms, base, a, f, schedule, depreciation, equity).irr.Some? ==>
              -0.9 < Outcome(rooms, base, a, f, schedule, depreciation, equity).irr.value < 1.0
  {
    var cashflows := Outcome(rooms, base, a, f, schedule, depreciation, equity).cashflows;
    if !NoSignChange(cashflows) {
      IrrOutcome(cashflows, IrrTolerance, IrrMaxIter);
    }
  }
}
