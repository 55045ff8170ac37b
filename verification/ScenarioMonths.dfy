/** What a scenario's month consists of, item by item, and which item each input moves. */
module ScenarioMonths {
  import opened Wrappers
  import opened Loan
  import opened Scenario

  // ---------- what a month is computed from ----------

  ghost predicate LatestAt(history: seq<History>, h: History, j: nat) {
    && j < |history| && history[j] == h
    && (forall k :: 0 <= k < j ==> history[k].month <= h.month)
    && (forall k :: j < k < |history| ==> history[k].month < h.month)
  }

  /** The latest record of the cost history; of several of one month the last. */
  ghost predicate LatestRecord(history: seq<History>, h: History) {
    exists j: nat :: LatestAt(history, h, j)
  }

  lemma LatestStays(history: seq<History>, earlier: History, j: nat)
    requires |history| > 1 && LatestAt(history[..|history| - 1], earlier, j)
    ensures var last := history[|history| - 1];
      LatestAt(history, if last.month >= earlier.month then last else earlier, if last.month >= earlier.month then |history| - 1 else j)
  {
    var init, n := history[..|history| - 1], |history| - 1;
    assert forall k :: 0 <= k < n ==> history[k] == init[k];
    forall k | 0 <= k < n ensures history[k].month <= earlier.month && (j < k ==> history[k].month < earlier.month) {
      assert init[k].month <= earlier.month;
    }
  }

  lemma {:induction false} LatestIsLatest(history: seq<History>)
    requires history != []
    ensures LatestRecord(history, LatestHistory(history))
  {
    if |history| == 1 {
      assert LatestAt(history, history[0], 0);
    } else {
      var init := history[..|history| - 1];
      LatestIsLatest(init);
      var j: nat :| LatestAt(init, LatestHistory(init), j);
      LatestStays(history, LatestHistory(init), j);
    }
  }

  ghost predicate FirstFor(features: seq<MonthFeatures>, month: int, j: nat) {
    j < |features| && features[j].month == month && forall k :: 0 <= k < j ==> features[k].month != month
  }

  /** The official features of a month: the first entry for it, or neutral ones. */
  ghost predicate FeaturesAre(features: seq<MonthFeatures>, month: int, f: MonthFeatures) {
    || (exists j: nat :: FirstFor(features, month, j) && features[j] == f)
    || ((forall k :: 0 <= k < |features| ==> features[k].month != month) && f == MonthFeatures(month, 1.0, 1.0, 0.0))
  }

  lemma {:induction false} FeaturesForMonthAre(features: seq<MonthFeatures>, month: int)
    ensures FeaturesAre(features, month, FeaturesForMonth(features, month))
  {
    if features != [] && features[0].month != month {
      var rest, f := features[1..], FeaturesForMonth(features, month);
      FeaturesForMonthAre(rest, month);
      assert forall k :: 0 < k < |features| ==> features[k] == rest[k - 1];
      if j: nat :| FirstFor(rest, month, j) && rest[j] == f {
        assert FirstFor(features, month, j + 1);
      }
    } else if features != [] {
      assert FirstFor(features, month, 0);
    }
  }

  ghost predicate LastOverride(schedule: seq<FixedCostEntry>, month: int, category: Category, j: nat) {
    && j < |schedule| && schedule[j].month == month && schedule[j].category == category
    && forall k :: j < k < |schedule| ==> schedule[k].month != month || schedule[k].category != category
  }

  /** The fixed cost of one category in a month: its last override for that month, or the base. */
  ghost predicate AmountIs(base: map<Category, real>, schedule: seq<FixedCostEntry>, month: int, category: Category, amount: real)
    requires category in base
  {
    || (exists j: nat :: LastOverride(schedule, month, category, j) && schedule[j].amount == amount)
    || ((forall k :: 0 <= k < |schedule| ==> schedule[k].month != month || schedule[k].category != category) && amount == base[category])
  }

  lemma AmountStays(base: map<Category, real>, schedule: seq<FixedCostEntry>, month: int, category: Category, amount: real)
    requires category in base && schedule != [] && AmountIs(base, schedule[..|schedule| - 1], month, category, amount)
    ensures var entry := schedule[|schedule| - 1];
      AmountIs(base, schedule, month, category, if entry.month == month && entry.category == category then entry.amount else amount)
  {
    var init, entry := schedule[..|schedule| - 1], schedule[|schedule| - 1];
    assert forall k :: 0 <= k < |init| ==> schedule[k] == init[k];
    if entry.month == month && entry.category == category {
      assert LastOverride(schedule, month, category, |schedule| - 1);
    } else if j: nat :| LastOverride(init, month, category, j) && init[j].amount == amount {
      assert LastOverride(schedule, month, category, j);
    }
  }

  lemma {:induction false} FixedCostsAre(base: map<Category, real>, schedule: seq<FixedCostEntry>, month: int, category: Category)
    requires base.Keys == {Rent, Labor, Utilities, Category.Other}
    ensures category in base && category in FixedCosts(base, schedule, month)
    ensures AmountIs(base, schedule, month, category, FixedCosts(base, schedule, month)[category])
  {
    EveryCategory(category);
    FixedCostsKeys(base, schedule, month);
    if schedule != [] {
      var init := schedule[..|schedule| - 1];
      FixedCostsKeys(base, init, month);
      FixedCostsAre(base, init, month, category);
      AmountStays(base, schedule, month, category, FixedCosts(base, init, month)[category]);
    }
  }

  /** The features that act on a month of a scenario; without any given, neutral ones. */
  ghost predicate OfMonth(x: Input, month: int, f: MonthFeatures) {
    if x.features.Some? then FeaturesAre(x.features.value, month, f) else f == MonthFeatures(month, 1.0, 1.0, 0.0)
  }

  lemma FeaturesOf(x: Input, month: int) returns (f: MonthFeatures)
    ensures OfMonth(x, month, f)
    ensures f == if x.features.Some? then FeaturesForMonth(x.features.value, month) else MonthFeatures(month, 1.0, 1.0, 0.0)
  {
    f := MonthFeatures(month, 1.0, 1.0, 0.0);
    if x.features.Some? {
      FeaturesForMonthAre(x.features.value, month);
      f := FeaturesForMonth(x.features.value, month);
    }
  }

  /** The rate change of a month: none for a store without variable-rate debt, and otherwise that of the stress scenario
      and of the official features together. */
  ghost predicate RateChangeIs(x: Input, i: nat, delta: real)
    requires i < |x.adjustments|
  {
    if x.store.variableRateDebtShare > 0.0 && exists n :: 0 <= n < |x.store.loans| && x.store.loans[n].rateType == Variable then
      exists f :: OfMonth(x, x.adjustments[i].month, f) && delta == x.adjustments[i].interestRateDelta + f.interestRateDelta
    else delta == 0.0
  }

  lemma RateChangeOf(x: Input, i: nat)
    requires i < |x.adjustments|
    ensures RateChangeIs(x, i, CombinedRateDelta(x, x.adjustments[i]))
  {
    var f := FeaturesOf(x, x.adjustments[i].month);
  }

  /** The payment of one loan in a month, scheduled at a rate change from the first month of the forecast on, with the
      loan's own grace or the common one. */
  ghost predicate PaymentIs(x: Input, n: nat, delta: real, i: nat, p: Payment)
    requires x.forecasts != [] && n < |x.store.loans|
  {
    var loan := x.store.loans[n];
    var grace := if loan.id in x.graceByLoan then x.graceByLoan[loan.id] else x.graceMonths;
    var s := Schedule(loan, Terms(delta, grace, Some(x.forecasts[0].month)), |x.adjustments|);
    s.Success? && i < |s.value| && p == s.value[i]
  }

  ghost function Interests(payments: seq<Payment>): real {
    if payments == [] then 0.0 else Interests(payments[..|payments| - 1]) + payments[|payments| - 1].interest
  }

  ghost function Principals(payments: seq<Payment>): real {
    if payments == [] then 0.0 else Principals(payments[..|payments| - 1]) + payments[|payments| - 1].principal
  }

  lemma {:induction false} DebtOf(x: Input, delta: real, n: nat, i: nat) returns (payments: seq<Payment>)
    requires x.forecasts != [] && n <= |x.store.loans| && i < |x.adjustments| && SchedulesUpTo(x, delta, n).Success?
    ensures |payments| == n && forall k :: 0 <= k < n ==> PaymentIs(x, k, delta, i, payments[k])
    ensures InterestDue(SchedulesUpTo(x, delta, n).value, i) == Interests(payments)
    ensures PrincipalDue(SchedulesUpTo(x, delta, n).value, i) == Principals(payments)
  {
    payments := [];
    if n > 0 {
      var before := DebtOf(x, delta, n - 1, i);
      var loan, all := x.store.loans[n - 1], SchedulesUpTo(x, delta, n).value;
      var last := Schedule(loan, TermsOf(x, loan, delta), |x.adjustments|).value;
      assert all[..n - 1] == SchedulesUpTo(x, delta, n - 1).value && all[n - 1] == last;
      payments := before + [last[i]];
      assert payments[..n - 1] == before;
    }
  }

  // ---------- the month, item by item ----------

  /** The domestic and the imported share of the ingredients weigh their official multipliers. */
  ghost predicate BlendIs(x: Input, month: int, blend: real) {
    exists f :: OfMonth(x, month, f)
      && blend == (1.0 - x.store.importedShare) * f.domesticMultiplier + x.store.importedShare * f.importedMultiplier
  }

  lemma BlendOf(x: Input, month: int)
    ensures BlendIs(x, month, IngredientMultiplier(x, month))
  {
    var f := FeaturesOf(x, month);
  }

  lemma ItemsOf(x: Input, i: nat)
    requires Acceptable(x) && i < |x.forecasts|
    ensures Flows(x)[i].items == MonthItems(x, i) && Flows(x)[i].month == x.forecasts[i].month
  {
    FlowsUpToChain(x, |x.forecasts|);
  }

  lemma CostIsShare(revenue: real, part: real, whole: real, blend: real, multiplier: real, cost: real)
    requires whole > 0.0 && cost == revenue * (part / whole) * blend * multiplier
    ensures cost * whole == revenue * part * blend * multiplier
  {
    var ratio := part / whole;
    assert ratio * whole == part;
    var scaled := revenue * ratio;
    assert scaled * whole == revenue * part;
    assert cost * whole == scaled * blend * multiplier * whole;
    assert scaled * blend * multiplier * whole == (scaled * whole) * blend * multiplier;
  }

  /** Revenue is the forecast point times the month's multiplier, and what does not depend on it is that of the latest
      record. */
  lemma PlainItems(x: Input, i: nat) returns (h: History)
    requires Acceptable(x) && i < |x.forecasts|
    ensures LatestRecord(x.store.history, h)
    ensures var y := Flows(x)[i].items;
      && y.revenue == x.forecasts[i].point * x.adjustments[i].revenueMultiplier
      && y.tax == h.tax && y.capex == h.capex && y.otherInflows == 0.0
  {
    h := LatestHistory(x.store.history);
    LatestIsLatest(x.store.history);
    ItemsOf(x, i);
  }

  /** The ingredients are the latest record's share of revenue, blended from the official multipliers, times the month's
      multiplier; nothing is spent if that record has no revenue. */
  lemma IngredientItem(x: Input, i: nat) returns (h: History, blend: real)
    requires Acceptable(x) && i < |x.forecasts|
    ensures LatestRecord(x.store.history, h) && BlendIs(x, x.forecasts[i].month, blend)
    ensures var y, a := Flows(x)[i].items, x.adjustments[i];
      if h.revenue > 0.0 then y.ingredientCosts * h.revenue == y.revenue * h.ingredients * blend * a.variableCostMultiplier
      else y.ingredientCosts == 0.0
  {
    h, blend := LatestHistory(x.store.history), IngredientMultiplier(x, x.forecasts[i].month);
    LatestIsLatest(x.store.history);
    BlendOf(x, x.forecasts[i].month);
    ItemsOf(x, i);
    var y, a := MonthItems(x, i), x.adjustments[i];
    if h.revenue > 0.0 {
      CostIsShare(y.revenue, h.ingredients, h.revenue, blend, a.variableCostMultiplier, y.ingredientCosts);
    }
  }

  /** The other variable costs are the latest record's fees as a share of revenue, times the month's multiplier. */
  lemma FeeItem(x: Input, i: nat) returns (h: History)
    requires Acceptable(x) && i < |x.forecasts|
    ensures LatestRecord(x.store.history, h)
    ensures var y, a := Flows(x)[i].items, x.adjustments[i];
      if h.revenue > 0.0 then y.otherVariableCosts * h.revenue == y.revenue * (h.platformFee + h.paymentFee) * a.variableCostMultiplier
      else y.otherVariableCosts == 0.0
  {
    h := LatestHistory(x.store.history);
    LatestIsLatest(x.store.history);
    ItemsOf(x, i);
    var y, a := MonthItems(x, i), x.adjustments[i];
    if h.revenue > 0.0 {
      RatiosAdd(h.platformFee, h.paymentFee, h.revenue);
      CostIsShare(y.revenue, h.platformFee + h.paymentFee, h.revenue, 1.0, a.variableCostMultiplier, y.otherVariableCosts);
    }
  }

  lemma RatiosAdd(a: real, b: real, whole: real)
    requires whole > 0.0
    ensures a / whole + b / whole == (a + b) / whole
  {
  }

  /** The fixed cost adds up the four categories as they stand in the month, times the month's multiplier. */
  lemma FixedItem(x: Input, i: nat) returns (h: History, amounts: map<Category, real>)
    requires Acceptable(x) && i < |x.forecasts|
    ensures LatestRecord(x.store.history, h) && h.fixedCosts.Keys == amounts.Keys == {Rent, Labor, Utilities, Category.Other}
    ensures forall c :: c in amounts ==> AmountIs(h.fixedCosts, x.store.fixedCostSchedule, x.forecasts[i].month, c, amounts[c])
    ensures Flows(x)[i].items.fixedCosts
      == (amounts[Rent] + amounts[Labor] + amounts[Utilities] + amounts[Category.Other]) * x.adjustments[i].fixedCostMultiplier
  {
    h := LatestHistory(x.store.history);
    LatestIsLatest(x.store.history);
    LatestIsMember(x.store.history);
    FixedCostsKeys(h.fixedCosts, x.store.fixedCostSchedule, x.forecasts[i].month);
    amounts := FixedCosts(h.fixedCosts, x.store.fixedCostSchedule, x.forecasts[i].month);
    forall c | c in amounts ensures AmountIs(h.fixedCosts, x.store.fixedCostSchedule, x.forecasts[i].month, c, amounts[c]) {
      FixedCostsAre(h.fixedCosts, x.store.fixedCostSchedule, x.forecasts[i].month, c);
    }
    ItemsOf(x, i);
  }

  /** Interest and principal add up the payments of all loans at the month's own rate change. */
  lemma DebtItems(x: Input, i: nat) returns (delta: real, payments: seq<Payment>)
    requires Acceptable(x) && Complaint(x).None? && i < |x.forecasts|
    ensures RateChangeIs(x, i, delta)
    ensures |payments| == |x.store.loans| && forall n :: 0 <= n < |payments| ==> PaymentIs(x, n, delta, i, payments[n])
    ensures Flows(x)[i].items.interest == Interests(payments) && Flows(x)[i].items.principal == Principals(payments)
  {
    delta := CombinedRateDelta(x, x.adjustments[i]);
    RateChangeOf(x, i);
    FailureIgnoresRate(x, 0.0, delta, |x.store.loans|);
    payments := DebtOf(x, delta, |x.store.loans|, i);
    ItemsOf(x, i);
  }

  /** In which order an input is complained about. */
  lemma ComplaintsInOrder(x: Input)
    ensures Complaint(x) == Some(NoForecasts) <==> x.forecasts == []
    ensures Complaint(x) == Some(NoCostHistory) <==> x.forecasts != [] && x.store.history == []
    ensures Complaint(x) == Some(HorizonMismatch) <==>
      x.forecasts != [] && x.store.history != [] && |x.adjustments| != |x.forecasts|
    ensures Complaint(x) == Some(MonthsMisaligned) <==>
      && x.forecasts != [] && x.store.history != [] && |x.adjustments| == |x.forecasts|
      && exists i :: 0 <= i < |x.forecasts| && x.adjustments[i].month != x.forecasts[i].month
  {
  }
}
