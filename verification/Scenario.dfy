/** The monthly financial scenario of a store (backend/src/finance/monthly_scenario.py). */
module Scenario {
  import opened Wrappers
  import opened Keys
  import opened Loan
  import LoanMonotone
  import opened CashFlow
  import opened BreakEven

  datatype History = History(
    month: int,
    revenue: real,
    ingredients: real,
    platformFee: real,
    paymentFee: real,
    fixedCosts: map<Category, real>,
    tax: real,
    capex: real)

  datatype Category = Rent | Labor | Utilities | Other

  datatype FixedCostEntry = FixedCostEntry(month: int, category: Category, amount: real)

  datatype Store = Store(
    currentCash: real,
    minimumCash: real,
    history: seq<History>,
    fixedCostSchedule: seq<FixedCostEntry>,
    loans: seq<Loan>,
    importedShare: real,
    variableRateDebtShare: real)
  {
    ghost predicate Valid() {
      && currentCash >= 0.0
      && minimumCash >= 0.0
      && (forall i :: 0 <= i < |loans| ==> loans[i].Valid())
      && (forall i :: 0 <= i < |history| ==> history[i].fixedCosts.Keys == {Rent, Labor, Utilities, Other})
    }
  }

  datatype Forecast = Forecast(month: int, point: real)

  datatype Adjustment = Adjustment(
    month: int,
    revenueMultiplier: real,
    variableCostMultiplier: real,
    fixedCostMultiplier: real,
    interestRateDelta: real)

  datatype MonthFeatures = MonthFeatures(month: int, domesticMultiplier: real, importedMultiplier: real, interestRateDelta: real)

  /** All arguments of one scenario run. */
  datatype Input = Input(
    store: Store,
    forecasts: seq<Forecast>,
    adjustments: seq<Adjustment>,
    graceMonths: int,
    graceByLoan: map<Key, int>,
    features: Option<seq<MonthFeatures>>)

  datatype Error =
    | NoForecasts
    | NoCostHistory
    | HorizonMismatch
    | MonthsMisaligned
    | LoanFailed(cause: ScheduleError)

  datatype Output = Output(flows: seq<CashFlow>, beps: seq<Bep>, burn: CashBurn)

  function LatestHistory(history: seq<History>): History
    requires history != []
  {
    var last := history[|history| - 1];
    if |history| == 1 then last
    else
      var earlier := LatestHistory(history[..|history| - 1]);
      if last.month >= earlier.month then last else earlier
  }

  function FeaturesForMonth(features: seq<MonthFeatures>, month: int): MonthFeatures {
    if features == [] then MonthFeatures(month, 1.0, 1.0, 0.0)
    else if features[0].month == month then features[0]
    else FeaturesForMonth(features[1..], month)
  }

  predicate HasVariableDebt(store: Store) {
    store.variableRateDebtShare > 0.0 && exists i :: 0 <= i < |store.loans| && store.loans[i].rateType.Variable?
  }

  function CombinedRateDelta(x: Input, adjustment: Adjustment): real {
    if !HasVariableDebt(x.store) then 0.0
    else
      var official :=
        if x.features.Some? then FeaturesForMonth(x.features.value, adjustment.month).interestRateDelta else 0.0;
      adjustment.interestRateDelta + official
  }

  function GraceOf(x: Input, loan: Loan): int {
    if loan.id in x.graceByLoan then x.graceByLoan[loan.id] else x.graceMonths
  }

  function TermsOf(x: Input, loan: Loan, delta: real): Terms
    requires x.forecasts != []
  {
    Terms(delta, GraceOf(x, loan), Some(x.forecasts[0].month))
  }

  /** The schedules of the first `n` loans at one rate change; the first loan that fails decides. */
  function SchedulesUpTo(x: Input, delta: real, n: nat): (r: Result<seq<seq<Payment>>, ScheduleError>)
    requires x.forecasts != [] && n <= |x.store.loans|
    ensures r.Success? ==> |r.value| == n
  {
    if n == 0 then Success([])
    else
      match SchedulesUpTo(x, delta, n - 1)
      case Failure(error) => Failure(error)
      case Success(schedules) =>
        var loan := x.store.loans[n - 1];
        match Schedule(loan, TermsOf(x, loan, delta), |x.adjustments|)
        case Failure(error) => Failure(error)
        case Success(schedule) => Success(schedules + [schedule])
  }

  function Schedules(x: Input, delta: real): (r: Result<seq<seq<Payment>>, ScheduleError>)
    requires x.forecasts != []
    ensures r.Success? ==> |r.value| == |x.store.loans|
  {
    SchedulesUpTo(x, delta, |x.store.loans|)
  }

  lemma {:induction false} SchedulesUpToFails(x: Input, delta: real, k: nat, n: nat)
    requires x.forecasts != [] && k <= n <= |x.store.loans| && SchedulesUpTo(x, delta, k).Failure?
    ensures SchedulesUpTo(x, delta, n) == SchedulesUpTo(x, delta, k)
  {
    if k < n { SchedulesUpToFails(x, delta, k, n - 1); }
  }

  lemma ScheduleFailureIgnoresRate(loan: Loan, terms: Terms, other: Terms, months: nat)
    requires loan.Valid() && other == terms.(rateDelta := other.rateDelta)
    ensures Schedule(loan, terms, months).Failure? ==> Schedule(loan, other, months) == Schedule(loan, terms, months)
  {
    if terms.rateDelta <= other.rateDelta {
      LoanMonotone.RaisingRateRaisesSchedule(loan, terms, loan, other, months);
    } else {
      LoanMonotone.RaisingRateRaisesSchedule(loan, other, loan, terms, months);
    }
  }

  /** Whether the loans can be scheduled does not depend on the rate change. */
  lemma {:induction false} FailureIgnoresRate(x: Input, d: real, e: real, n: nat)
    requires x.store.Valid() && x.forecasts != [] && n <= |x.store.loans|
    ensures SchedulesUpTo(x, d, n).Failure? ==> SchedulesUpTo(x, e, n) == SchedulesUpTo(x, d, n)
    ensures SchedulesUpTo(x, d, n).Success? ==> SchedulesUpTo(x, e, n).Success?
  {
    if n > 0 {
      FailureIgnoresRate(x, d, e, n - 1);
      var loan := x.store.loans[n - 1];
      ScheduleFailureIgnoresRate(loan, TermsOf(x, loan, d), TermsOf(x, loan, e), |x.adjustments|);
      ScheduleFailureIgnoresRate(loan, TermsOf(x, loan, e), TermsOf(x, loan, d), |x.adjustments|);
    }
  }

  method ComputeSchedules(x: Input, delta: real) returns (r: Result<seq<seq<Payment>>, ScheduleError>)
    requires x.forecasts != []
    ensures r == Schedules(x, delta)
  {
    var schedules: seq<seq<Payment>> := [];
    for n := 0 to |x.store.loans|
      invariant SchedulesUpTo(x, delta, n) == Success(schedules)
    {
      var loan := x.store.loans[n];
      var schedule := CalculateLoanSchedule(loan, |x.adjustments|, TermsOf(x, loan, delta));
      if schedule.Failure? {
        r := Failure(schedule.error);
        SchedulesUpToFails(x, delta, n + 1, |x.store.loans|);
        return;
      }
      schedules := schedules + [schedule.value];
    }
    r := Success(schedules);
  }

  /** Interest and principal that a set of schedules asks for in one month. */
  function InterestDue(schedules: seq<seq<Payment>>, month: nat): real {
    if schedules == [] then 0.0
    else
      var last := schedules[|schedules| - 1];
      InterestDue(schedules[..|schedules| - 1], month) + if month < |last| then last[month].interest else 0.0
  }

  function PrincipalDue(schedules: seq<seq<Payment>>, month: nat): real {
    if schedules == [] then 0.0
    else
      var last := schedules[|schedules| - 1];
      PrincipalDue(schedules[..|schedules| - 1], month) + if month < |last| then last[month].principal else 0.0
  }

  /** The fixed costs of a month: the base by category, overridden by the schedule entries in order. */
  function FixedCosts(base: map<Category, real>, schedule: seq<FixedCostEntry>, month: int): map<Category, real> {
    if schedule == [] then base
    else
      var entry := schedule[|schedule| - 1];
      var before := FixedCosts(base, schedule[..|schedule| - 1], month);
      if entry.month == month then before[entry.category := entry.amount] else before
  }

  lemma EveryCategory(category: Category)
    ensures category in {Rent, Labor, Utilities, Other}
  {
    match category
    case Rent =>
    case Labor =>
    case Utilities =>
    case Other =>
  }

  lemma {:induction false} FixedCostsKeys(base: map<Category, real>, schedule: seq<FixedCostEntry>, month: int)
    requires base.Keys == {Rent, Labor, Utilities, Other}
    ensures FixedCosts(base, schedule, month).Keys == base.Keys
  {
    if schedule != [] {
      FixedCostsKeys(base, schedule[..|schedule| - 1], month);
      EveryCategory(schedule[|schedule| - 1].category);
    }
  }

  function TotalFixed(costs: map<Category, real>): real
    requires costs.Keys == {Rent, Labor, Utilities, Other}
  {
    costs[Rent] + costs[Labor] + costs[Utilities] + costs[Other]
  }

  ghost predicate Acceptable(x: Input) {
    && x.store.Valid()
    && x.forecasts != [] && x.store.history != []
    && |x.adjustments| == |x.forecasts|
    && (forall i :: 0 <= i < |x.forecasts| ==> x.adjustments[i].month == x.forecasts[i].month)
  }

  function Ratio(part: real, whole: real): real {
    if whole > 0.0 then part / whole else 0.0
  }

  function IngredientMultiplier(x: Input, month: int): real {
    if x.features.None? then 1.0
    else
      var features := FeaturesForMonth(x.features.value, month);
      (1.0 - x.store.importedShare) * features.domesticMultiplier + x.store.importedShare * features.importedMultiplier
  }

  /** The signed items of month `i`, with the schedules at that month's own rate change. */
  ghost function MonthItems(x: Input, i: nat): Items
    requires Acceptable(x) && i < |x.forecasts|
  {
    var last := LatestHistory(x.store.history);
    var forecast, adjustment := x.forecasts[i], x.adjustments[i];
    var revenue := forecast.point * adjustment.revenueMultiplier;
    var ingredient := revenue * Ratio(last.ingredients, last.revenue) * IngredientMultiplier(x, forecast.month);
    var other := revenue * (Ratio(last.platformFee, last.revenue) + Ratio(last.paymentFee, last.revenue));
    LatestIsMember(x.store.history);
    FixedCostsKeys(last.fixedCosts, x.store.fixedCostSchedule, forecast.month);
    var fixed := TotalFixed(FixedCosts(last.fixedCosts, x.store.fixedCostSchedule, forecast.month));
    var schedules := match Schedules(x, CombinedRateDelta(x, adjustment)) case Success(s) => s case Failure(_) => [];
    Items(
      revenue,
      ingredient * adjustment.variableCostMultiplier,
      other * adjustment.variableCostMultiplier,
      (ingredient + other) * adjustment.variableCostMultiplier,
      fixed * adjustment.fixedCostMultiplier,
      InterestDue(schedules, i),
      PrincipalDue(schedules, i),
      last.tax,
      last.capex,
      0.0)
  }

  lemma {:induction false} LatestIsMember(history: seq<History>)
    requires history != []
    ensures LatestHistory(history) in history
    ensures forall i :: 0 <= i < |history| ==> history[i].month <= LatestHistory(history).month
  {
    if |history| > 1 { LatestIsMember(history[..|history| - 1]); }
  }

  ghost function FlowsUpTo(x: Input, k: nat): (flows: seq<CashFlow>)
    requires Acceptable(x) && k <= |x.forecasts|
    ensures |flows| == k
  {
    if k == 0 then []
    else
      var before := FlowsUpTo(x, k - 1);
      var cash := if k == 1 then x.store.currentCash else before[k - 2].ending;
      before + [CalculateMonthlyCashflow(k, x.forecasts[k - 1].month, cash, MonthItems(x, k - 1))]
  }

  ghost function Flows(x: Input): (flows: seq<CashFlow>)
    requires Acceptable(x)
    ensures |flows| == |x.forecasts|
  {
    FlowsUpTo(x, |x.forecasts|)
  }

  /** The first complaint about an input, in the order the calculation raises them. */
  ghost function Complaint(x: Input): Option<Error> {
    if x.forecasts == [] then Some(NoForecasts)
    else if x.store.history == [] then Some(NoCostHistory)
    else if |x.adjustments| != |x.forecasts| then Some(HorizonMismatch)
    else if exists i :: 0 <= i < |x.forecasts| && x.adjustments[i].month != x.forecasts[i].month then Some(MonthsMisaligned)
    else
      match Schedules(x, 0.0)
      case Failure(error) => Some(LoanFailed(error))
      case Success(_) => None
  }

  method FixedCostOfMonth(base: map<Category, real>, schedule: seq<FixedCostEntry>, month: int) returns (total: real)
    requires base.Keys == {Rent, Labor, Utilities, Other}
    ensures FixedCosts(base, schedule, month).Keys == base.Keys
    ensures total == TotalFixed(FixedCosts(base, schedule, month))
  {
    var costs := base;
    for k := 0 to |schedule|
      invariant costs == FixedCosts(base, schedule[..k], month)
      invariant costs.Keys == base.Keys
    {
      assert schedule[..k + 1][..k] == schedule[..k];
      if schedule[k].month == month {
        EveryCategory(schedule[k].category);
        costs := costs[schedule[k].category := schedule[k].amount];
      }
    }
    assert schedule[..|schedule|] == schedule;
    total := costs[Rent] + costs[Labor] + costs[Utilities] + costs[Other];
  }

  method DebtService(schedules: seq<seq<Payment>>, month: nat) returns (interest: real, principal: real)
    ensures interest == InterestDue(schedules, month) && principal == PrincipalDue(schedules, month)
  {
    interest, principal := 0.0, 0.0;
    for n := 0 to |schedules|
      invariant interest == InterestDue(schedules[..n], month) && principal == PrincipalDue(schedules[..n], month)
    {
      assert schedules[..n + 1][..n] == schedules[..n];
      if month < |schedules[n]| {
        interest := interest + schedules[n][month].interest;
        principal := principal + schedules[n][month].principal;
      }
    }
    assert schedules[..|schedules|] == schedules;
  }

  /** The table of schedules by rate change, one entry for each change that some month uses. */
  method ScheduleTable(x: Input) returns (r: Result<map<real, seq<seq<Payment>>>, ScheduleError>)
    requires Acceptable(x)
    ensures match r
      case Failure(error) => Schedules(x, 0.0) == Failure(error)
      case Success(table) =>
        && Schedules(x, 0.0).Success?
        && forall i :: 0 <= i < |x.adjustments| ==>
             var delta := CombinedRateDelta(x, x.adjustments[i]);
             delta in table && Schedules(x, delta) == Success(table[delta])
  {
    var table: map<real, seq<seq<Payment>>> := map[];
    for i := 0 to |x.adjustments|
      invariant i > 0 ==> Schedules(x, 0.0).Success?
      invariant forall d :: d in table ==> Schedules(x, d) == Success(table[d])
      invariant forall j :: 0 <= j < i ==> CombinedRateDelta(x, x.adjustments[j]) in table
    {
      var delta := CombinedRateDelta(x, x.adjustments[i]);
      if delta !in table {
        var schedules := ComputeSchedules(x, delta);
        FailureIgnoresRate(x, delta, 0.0, |x.store.loans|);
        FailureIgnoresRate(x, 0.0, delta, |x.store.loans|);
        if schedules.Failure? {
          return Failure(schedules.error);
        }
        table := table[delta := schedules.value];
      }
      FailureIgnoresRate(x, delta, 0.0, |x.store.loans|);
    }
    r := Success(table);
  }

  method ComputeItems(x: Input, last: History, schedules: seq<seq<Payment>>, i: nat) returns (items: Items)
    requires Acceptable(x) && i < |x.forecasts| && last == LatestHistory(x.store.history)
    requires Schedules(x, CombinedRateDelta(x, x.adjustments[i])) == Success(schedules)
    ensures items == MonthItems(x, i)
  {
    LatestIsMember(x.store.history);
    var forecast, adjustment := x.forecasts[i], x.adjustments[i];
    var revenue := forecast.point * adjustment.revenueMultiplier;
    var ingredient := revenue * Ratio(last.ingredients, last.revenue) * IngredientMultiplier(x, forecast.month);
    var other := revenue * (Ratio(last.platformFee, last.revenue) + Ratio(last.paymentFee, last.revenue));
    var fixed := FixedCostOfMonth(last.fixedCosts, x.store.fixedCostSchedule, forecast.month);
    var interest, principal := DebtService(schedules, i);
    items := Items(
      revenue,
      ingredient * adjustment.variableCostMultiplier,
      other * adjustment.variableCostMultiplier,
      (ingredient + other) * adjustment.variableCostMultiplier,
      fixed * adjustment.fixedCostMultiplier,
      interest,
      principal,
      last.tax,
      last.capex,
      0.0);
  }

  ghost function Beps(x: Input, k: nat): seq<Bep>
    requires Acceptable(x) && k <= |x.forecasts|
  {
    if k == 0 then [] else Beps(x, k - 1) + [BepOf(MonthItems(x, k - 1))]
  }

  /** The month loop: each month's schedules are looked up by that month's rate change, and its cash is carried on. */
  method ProjectMonths(x: Input, table: map<real, seq<seq<Payment>>>) returns (flows: seq<CashFlow>, beps: seq<Bep>)
    requires Acceptable(x)
    requires forall i :: 0 <= i < |x.adjustments| ==>
      var delta := CombinedRateDelta(x, x.adjustments[i]);
      delta in table && Schedules(x, delta) == Success(table[delta])
    ensures flows == Flows(x) && beps == Beps(x, |x.forecasts|)
  {
    var last := LatestHistory(x.store.history);
    var cash := x.store.currentCash;
    flows, beps := [], [];
    for i := 0 to |x.forecasts|
      invariant flows == FlowsUpTo(x, i) && beps == Beps(x, i)
      invariant cash == if i == 0 then x.store.currentCash else flows[i - 1].ending
    {
      var items := ComputeItems(x, last, table[CombinedRateDelta(x, x.adjustments[i])], i);
      beps := beps + [BepOf(items)];
      var flow := CalculateMonthlyCashflow(i + 1, x.forecasts[i].month, cash, items);
      flows := flows + [flow];
      cash := flow.ending;
    }
  }

  method CheckInput(x: Input) returns (error: Option<Error>)
    ensures error.Some? ==> Complaint(x) == error
    ensures error.None? ==> x.forecasts != []
    ensures error.None? && x.store.Valid() ==> Acceptable(x)
    ensures error.None? && Complaint(x).Some? ==> Schedules(x, 0.0).Failure? && Complaint(x).value == LoanFailed(Schedules(x, 0.0).error)
    ensures error.None? && Complaint(x).None? ==> Schedules(x, 0.0).Success?
  {
    if x.forecasts == [] { return Some(NoForecasts); }
    if x.store.history == [] { return Some(NoCostHistory); }
    if |x.adjustments| != |x.forecasts| { return Some(HorizonMismatch); }
    for i := 0 to |x.forecasts|
      invariant forall j :: 0 <= j < i ==> x.adjustments[j].month == x.forecasts[j].month
    {
      if x.adjustments[i].month != x.forecasts[i].month { return Some(MonthsMisaligned); }
    }
    return None;
  }

  /** Fails exactly with the first complaint about the input; otherwise yields the cash chain, the break-even of
      every month and the first burn and liquidity months of that chain. */
  method RunMonthlyFinancialScenario(x: Input) returns (r: Result<Output, Error>)
    requires x.store.Valid()
    ensures r.Failure? ==> Complaint(x) == Some(r.error)
    ensures r.Success? ==>
      && Complaint(x).None? && Acceptable(x)
      && r.value.flows == Flows(x)
      && r.value.beps == Beps(x, |x.forecasts|)
      && BurnIs(r.value.burn, Flows(x), x.store.minimumCash)
  {
    var error := CheckInput(x);
    if error.Some? { return Failure(error.value); }
    var table := ScheduleTable(x);
    if table.Failure? { return Failure(LoanFailed(table.error)); }
    var flows, beps := ProjectMonths(x, table.value);
    var burn := EvaluateCashBurn(flows, x.store.minimumCash);
    r := Success(Output(flows, beps, burn));
  }

  lemma {:induction false} FlowsUpToChain(x: Input, k: nat)
    requires Acceptable(x) && k <= |x.forecasts|
    ensures Chain(x.store.currentCash, FlowsUpTo(x, k))
    ensures forall i :: 0 <= i < k ==> FlowsUpTo(x, k)[i].items == MonthItems(x, i) && FlowsUpTo(x, k)[i].month == x.forecasts[i].month
  {
    if k > 0 {
      FlowsUpToChain(x, k - 1);
      var before, flows := FlowsUpTo(x, k - 1), FlowsUpTo(x, k);
      forall i | 0 <= i < k ensures Linked(x.store.currentCash, flows, i) {
        if i < k - 1 { assert Linked(x.store.currentCash, before, i); }
      }
    }
  }

  /** The flows of a scenario form one cash chain from the store's cash, and the variable cost of every month is
      its ingredient cost plus its other variable cost. */
  lemma ScenarioIsCashChain(x: Input)
    requires Acceptable(x)
    ensures Chain(x.store.currentCash, Flows(x))
    ensures forall i :: 0 <= i < |x.forecasts| ==> Flows(x)[i].month == x.forecasts[i].month
    ensures forall i :: 0 <= i < |x.forecasts| ==>
      var y := Flows(x)[i].items; y.variableCosts == y.ingredientCosts + y.otherVariableCosts && y.otherInflows == 0.0
  {
    FlowsUpToChain(x, |x.forecasts|);
    forall i | 0 <= i < |x.forecasts|
      ensures var y := Flows(x)[i].items; y.variableCosts == y.ingredientCosts + y.otherVariableCosts && y.otherInflows == 0.0
    {
      assert Flows(x)[i].items == MonthItems(x, i);
    }
  }
}
