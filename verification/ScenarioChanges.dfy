/** Which items of which month a single change to a scenario moves, and by how much. */
module ScenarioChanges {
  import opened CashFlow
  import opened Scenario
  import opened ScenarioMonths

  /** The scenario with other multipliers in month `k`. */
  function Remultiplied(x: Input, k: nat, revenue: real, variable: real, fixed: real): Input
    requires k < |x.adjustments|
  {
    var a := x.adjustments[k];
    x.(adjustments := x.adjustments[k := a.(revenueMultiplier := revenue, variableCostMultiplier := variable, fixedCostMultiplier := fixed)])
  }

  /** Loans, grace, horizon and first month decide the schedules. */
  lemma {:induction false} SameSchedules(x: Input, y: Input, delta: real, n: nat)
    requires x.forecasts != [] && y.forecasts == x.forecasts && |y.adjustments| == |x.adjustments|
    requires y.store.loans == x.store.loans && y.graceMonths == x.graceMonths && y.graceByLoan == x.graceByLoan
    requires n <= |x.store.loans|
    ensures SchedulesUpTo(y, delta, n) == SchedulesUpTo(x, delta, n)
  {
    if n > 0 { SameSchedules(x, y, delta, n - 1); }
  }

  lemma SameDebt(x: Input, y: Input, i: nat)
    requires Acceptable(x) && Acceptable(y) && i < |x.forecasts| && y.forecasts == x.forecasts
    requires y.store.loans == x.store.loans && y.graceMonths == x.graceMonths && y.graceByLoan == x.graceByLoan
    requires CombinedRateDelta(y, y.adjustments[i]) == CombinedRateDelta(x, x.adjustments[i])
    ensures MonthItems(y, i).interest == MonthItems(x, i).interest && MonthItems(y, i).principal == MonthItems(x, i).principal
  {
    SameSchedules(x, y, CombinedRateDelta(x, x.adjustments[i]), |x.store.loans|);
  }

  /** What a month's items are made of, apart from its multipliers. */
  datatype Parts = Parts(point: real, ingredients: real, fees: real, fixed: real, interest: real, principal: real, tax: real, capex: real)

  function Cost(revenue: real, share: real, multiplier: real): real { revenue * share * multiplier }

  function Times(a: real, b: real): real { a * b }

  function Assembled(p: Parts, a: Adjustment): Items {
    var revenue := Times(p.point, a.revenueMultiplier);
    var ingredients, fees := Cost(revenue, p.ingredients, a.variableCostMultiplier), Cost(revenue, p.fees, a.variableCostMultiplier);
    Items(revenue, ingredients, fees, ingredients + fees, Times(p.fixed, a.fixedCostMultiplier), p.interest, p.principal, p.tax, p.capex, 0.0)
  }

  ghost function PartsOf(x: Input, i: nat): Parts
    requires Acceptable(x) && i < |x.forecasts|
  {
    var h, forecast := LatestHistory(x.store.history), x.forecasts[i];
    LatestIsMember(x.store.history);
    FixedCostsKeys(h.fixedCosts, x.store.fixedCostSchedule, forecast.month);
    Parts(
      forecast.point,
      Ratio(h.ingredients, h.revenue) * IngredientMultiplier(x, forecast.month),
      Ratio(h.platformFee, h.revenue) + Ratio(h.paymentFee, h.revenue),
      TotalFixed(FixedCosts(h.fixedCosts, x.store.fixedCostSchedule, forecast.month)),
      MonthItems(x, i).interest, MonthItems(x, i).principal, h.tax, h.capex)
  }

  lemma Associates(a: real, b: real, c: real, d: real)
    ensures a * b * c * d == Cost(a, b * c, d)
  {
    assert a * b * c == a * (b * c);
  }

  lemma MonthAssembles(x: Input, i: nat)
    requires Acceptable(x) && i < |x.forecasts|
    ensures MonthItems(x, i) == Assembled(PartsOf(x, i), x.adjustments[i])
  {
    var h, a, p := LatestHistory(x.store.history), x.adjustments[i], PartsOf(x, i);
    var y := MonthItems(x, i);
    Associates(y.revenue, Ratio(h.ingredients, h.revenue), IngredientMultiplier(x, x.forecasts[i].month), a.variableCostMultiplier);
    assert y.ingredientCosts == Cost(y.revenue, p.ingredients, a.variableCostMultiplier);
    assert y.otherVariableCosts == Cost(y.revenue, p.fees, a.variableCostMultiplier);
    assert y.variableCosts == y.ingredientCosts + y.otherVariableCosts;
  }

  lemma FlowAssembles(x: Input, i: nat)
    requires Acceptable(x) && i < |x.forecasts|
    ensures Flows(x)[i].items == Assembled(PartsOf(x, i), x.adjustments[i])
  {
    ItemsOf(x, i);
    MonthAssembles(x, i);
  }

  lemma SameParts(x: Input, y: Input, i: nat)
    requires Acceptable(x) && Acceptable(y) && i < |x.forecasts| && y == x.(adjustments := y.adjustments)
    requires y.adjustments[i].interestRateDelta == x.adjustments[i].interestRateDelta
    ensures PartsOf(y, i) == PartsOf(x, i)
  {
    assert y.adjustments[i].month == x.adjustments[i].month;
    assert CombinedRateDelta(y, y.adjustments[i]) == CombinedRateDelta(x, x.adjustments[i]);
    SameDebt(x, y, i);
  }

  /** Before and after the new multipliers a month is put together from the same parts. */
  lemma BothAssemble(x: Input, k: nat, revenue: real, variable: real, fixed: real, i: nat) returns (p: Parts)
    requires Acceptable(x) && k < |x.forecasts| && i < |x.forecasts|
    ensures p.point == x.forecasts[i].point && Acceptable(Remultiplied(x, k, revenue, variable, fixed))
    ensures Flows(x)[i].items == Assembled(p, x.adjustments[i])
    ensures Flows(Remultiplied(x, k, revenue, variable, fixed))[i].items
      == Assembled(p, Remultiplied(x, k, revenue, variable, fixed).adjustments[i])
  {
    var y := Remultiplied(x, k, revenue, variable, fixed);
    p := PartsOf(x, i);
    FlowAssembles(x, i);
    FlowAssembles(y, i);
    SameParts(x, y, i);
  }

  lemma TimesScales(base: real, f: real, g: real)
    ensures Times(base, g) * f == Times(base, f) * g
    ensures Times(base, g) - Times(base, f) == Times(base, g - f)
  {
    assert base * g * f == base * f * g;
  }

  /** Revenue moves by the point times the difference of the multipliers, the variable costs in proportion, nothing else. */
  predicate RevenueMoved(before: Items, after: Items, point: real, m: real, n: real) {
    && after.revenue - before.revenue == point * (n - m)
    && after.ingredientCosts * m == before.ingredientCosts * n && after.otherVariableCosts * m == before.otherVariableCosts * n
    && after.fixedCosts == before.fixedCosts && after.interest == before.interest && after.principal == before.principal
    && after.tax == before.tax && after.capex == before.capex
  }

  /** The variable costs move in proportion, nothing else. */
  predicate VariableMoved(before: Items, after: Items, m: real, n: real) {
    && after.ingredientCosts * m == before.ingredientCosts * n && after.otherVariableCosts * m == before.otherVariableCosts * n
    && after.revenue == before.revenue && after.fixedCosts == before.fixedCosts && after.interest == before.interest
    && after.principal == before.principal && after.tax == before.tax && after.capex == before.capex
  }

  /** The fixed costs move in proportion, nothing else. */
  predicate FixedMoved(before: Items, after: Items, m: real, n: real) {
    after.fixedCosts * m == before.fixedCosts * n && after == before.(fixedCosts := after.fixedCosts)
  }

  /** Another revenue multiplier moves the month's revenue by its forecast point times the difference and its variable costs
      in proportion, and nothing else in any month. */
  lemma RevenueMultiplierMoves(x: Input, k: nat, revenue: real, i: nat)
    requires Acceptable(x) && k < |x.forecasts| && i < |x.forecasts|
    ensures var a := x.adjustments[k]; Acceptable(Remultiplied(x, k, revenue, a.variableCostMultiplier, a.fixedCostMultiplier))
    ensures var a := x.adjustments[k];
      var before, after := Flows(x)[i].items, Flows(Remultiplied(x, k, revenue, a.variableCostMultiplier, a.fixedCostMultiplier))[i].items;
      if i == k then RevenueMoved(before, after, x.forecasts[k].point, a.revenueMultiplier, revenue) else after == before
  {
    var a := x.adjustments[k];
    var p := BothAssemble(x, k, revenue, a.variableCostMultiplier, a.fixedCostMultiplier, i);
    if i == k { RevenueMoves(p, a, revenue); }
  }

  lemma RevenueMoves(p: Parts, a: Adjustment, revenue: real)
    ensures RevenueMoved(Assembled(p, a), Assembled(p, a.(revenueMultiplier := revenue)), p.point, a.revenueMultiplier, revenue)
  {
    TimesScales(p.point, a.revenueMultiplier, revenue);
    RevenueScales(p.point, a.revenueMultiplier, revenue, p.ingredients, a.variableCostMultiplier);
    RevenueScales(p.point, a.revenueMultiplier, revenue, p.fees, a.variableCostMultiplier);
  }

  lemma VariableMoves(p: Parts, a: Adjustment, variable: real)
    ensures VariableMoved(Assembled(p, a), Assembled(p, a.(variableCostMultiplier := variable)), a.variableCostMultiplier, variable)
  {
    VariableScales(Times(p.point, a.revenueMultiplier), p.ingredients, a.variableCostMultiplier, variable);
    VariableScales(Times(p.point, a.revenueMultiplier), p.fees, a.variableCostMultiplier, variable);
  }

  lemma FixedMoves(p: Parts, a: Adjustment, fixed: real)
    ensures FixedMoved(Assembled(p, a), Assembled(p, a.(fixedCostMultiplier := fixed)), a.fixedCostMultiplier, fixed)
  {
    TimesScales(p.fixed, a.fixedCostMultiplier, fixed);
  }

  lemma RevenueScales(point: real, m: real, n: real, share: real, v: real)
    ensures Cost(Times(point, n), share, v) * m == Cost(Times(point, m), share, v) * n
  {
    var rest := point * share * v;
    assert Cost(Times(point, n), share, v) == rest * n by { assert point * n * share == point * share * n; }
    assert Cost(Times(point, m), share, v) == rest * m by { assert point * m * share == point * share * m; }
    assert (rest * n) * m == (rest * m) * n;
  }

  lemma VariableScales(revenue: real, share: real, v: real, w: real)
    ensures Cost(revenue, share, w) * v == Cost(revenue, share, v) * w
  {
    TimesScales(revenue * share, v, w);
  }

  /** Another variable-cost multiplier scales the month's variable costs, and moves nothing else in any month. */
  lemma VariableMultiplierMoves(x: Input, k: nat, variable: real, i: nat)
    requires Acceptable(x) && k < |x.forecasts| && i < |x.forecasts|
    ensures var a := x.adjustments[k]; Acceptable(Remultiplied(x, k, a.revenueMultiplier, variable, a.fixedCostMultiplier))
    ensures var a := x.adjustments[k];
      var before, after := Flows(x)[i].items, Flows(Remultiplied(x, k, a.revenueMultiplier, variable, a.fixedCostMultiplier))[i].items;
      if i == k then VariableMoved(before, after, a.variableCostMultiplier, variable) else after == before
  {
    var a := x.adjustments[k];
    var p := BothAssemble(x, k, a.revenueMultiplier, variable, a.fixedCostMultiplier, i);
    if i == k { VariableMoves(p, a, variable); }
  }

  /** Another fixed-cost multiplier scales the month's fixed costs, and moves nothing else in any month. */
  lemma FixedMultiplierMoves(x: Input, k: nat, fixed: real, i: nat)
    requires Acceptable(x) && k < |x.forecasts| && i < |x.forecasts|
    ensures var a := x.adjustments[k]; Acceptable(Remultiplied(x, k, a.revenueMultiplier, a.variableCostMultiplier, fixed))
    ensures var a := x.adjustments[k];
      var before, after := Flows(x)[i].items, Flows(Remultiplied(x, k, a.revenueMultiplier, a.variableCostMultiplier, fixed))[i].items;
      if i == k then FixedMoved(before, after, a.fixedCostMultiplier, fixed) else after == before
  {
    var a := x.adjustments[k];
    var p := BothAssemble(x, k, a.revenueMultiplier, a.variableCostMultiplier, fixed, i);
    if i == k { FixedMoves(p, a, fixed); }
  }

  // ---------- neutral months and the ingredient blend ----------

  /** A month that no multiplier and no official feature moves earns the forecast point, and spends of it what the latest
      record spent of its revenue. */
  lemma NeutralMonth(x: Input, i: nat) returns (h: History)
    requires Acceptable(x) && i < |x.forecasts|
    requires x.adjustments[i].revenueMultiplier == x.adjustments[i].variableCostMultiplier == 1.0
    requires forall f :: OfMonth(x, x.forecasts[i].month, f) ==> f.domesticMultiplier == f.importedMultiplier == 1.0
    ensures LatestRecord(x.store.history, h)
    ensures var y := Flows(x)[i].items;
      && y.revenue == x.forecasts[i].point
      && (h.revenue > 0.0 ==> y.ingredientCosts == y.revenue * (h.ingredients / h.revenue))
      && (h.revenue > 0.0 ==> y.otherVariableCosts == y.revenue * (h.platformFee / h.revenue + h.paymentFee / h.revenue))
  {
    h := LatestHistory(x.store.history);
    LatestIsLatest(x.store.history);
    BlendOf(x, x.forecasts[i].month);
    NeutralBlend(x, x.forecasts[i].month, IngredientMultiplier(x, x.forecasts[i].month));
    FlowAssembles(x, i);
  }

  lemma NeutralBlend(x: Input, month: int, blend: real)
    requires BlendIs(x, month, blend) && forall f :: OfMonth(x, month, f) ==> f.domesticMultiplier == f.importedMultiplier == 1.0
    ensures blend == 1.0
  {
  }

  /** A store without imported ingredients feels only the domestic multiplier, one without domestic ones only the imported
      multiplier, and any other store their mean by the two shares, a value between them. */
  predicate Blends(share: real, f: MonthFeatures, blend: real) {
    && (share == 0.0 ==> blend == f.domesticMultiplier)
    && (share == 1.0 ==> blend == f.importedMultiplier)
    && blend - f.domesticMultiplier == share * (f.importedMultiplier - f.domesticMultiplier)
    && (f.domesticMultiplier <= f.importedMultiplier ==> f.domesticMultiplier <= blend <= f.importedMultiplier)
    && (f.importedMultiplier <= f.domesticMultiplier ==> f.importedMultiplier <= blend <= f.domesticMultiplier)
  }

  lemma BlendLiesBetween(share: real, f: MonthFeatures, blend: real)
    requires 0.0 <= share <= 1.0 && blend == (1.0 - share) * f.domesticMultiplier + share * f.importedMultiplier
    ensures Blends(share, f, blend)
  {
    var gap := f.importedMultiplier - f.domesticMultiplier;
    assert blend == f.domesticMultiplier + share * gap;
    ShareOfGap(share, gap);
  }

  /** The month's ingredients feel the official multipliers by the store's imported share alone. */
  lemma IngredientsFeelTheirShare(x: Input, i: nat) returns (h: History, f: MonthFeatures, blend: real)
    requires Acceptable(x) && i < |x.forecasts| && 0.0 <= x.store.importedShare <= 1.0
    ensures LatestRecord(x.store.history, h) && OfMonth(x, x.forecasts[i].month, f) && Blends(x.store.importedShare, f, blend)
    ensures var y, a := Flows(x)[i].items, x.adjustments[i];
      h.revenue > 0.0 ==> y.ingredientCosts * h.revenue == y.revenue * h.ingredients * blend * a.variableCostMultiplier
  {
    h, blend := IngredientItem(x, i);
    f := BlendedFrom(x, x.forecasts[i].month, blend);
  }

  lemma BlendedFrom(x: Input, month: int, blend: real) returns (f: MonthFeatures)
    requires 0.0 <= x.store.importedShare <= 1.0 && BlendIs(x, month, blend)
    ensures OfMonth(x, month, f) && Blends(x.store.importedShare, f, blend)
  {
    var share := x.store.importedShare;
    f :| OfMonth(x, month, f) && blend == (1.0 - share) * f.domesticMultiplier + share * f.importedMultiplier;
    BlendLiesBetween(share, f, blend);
  }

  lemma ShareOfGap(share: real, gap: real)
    requires 0.0 <= share <= 1.0
    ensures gap >= 0.0 ==> 0.0 <= share * gap <= gap
    ensures gap <= 0.0 ==> gap <= share * gap <= 0.0
  {
    if gap >= 0.0 {
      var rest := 1.0 - share;
      assert rest * gap >= 0.0;
      assert rest * gap == gap - share * gap;
    } else {
      var rest, drop := 1.0 - share, -gap;
      assert rest * drop >= 0.0;
      assert rest * drop == drop - share * drop;
      assert share * drop >= 0.0;
      assert share * drop == -(share * gap);
    }
  }

  // ---------- overrides of the fixed costs ----------

  /** The scenario with one more entry at the end of the fixed-cost schedule. */
  function Overridden(x: Input, entry: FixedCostEntry): Input {
    x.(store := x.store.(fixedCostSchedule := x.store.fixedCostSchedule + [entry]))
  }

  function AmountOf(x: Input, month: int, category: Category): real
    requires Acceptable(x)
  {
    var h := LatestHistory(x.store.history);
    LatestIsMember(x.store.history);
    FixedCostsKeys(h.fixedCosts, x.store.fixedCostSchedule, month);
    EveryCategory(category);
    FixedCosts(h.fixedCosts, x.store.fixedCostSchedule, month)[category]
  }

  lemma AmountOverridden(x: Input, entry: FixedCostEntry, month: int, category: Category)
    requires Acceptable(x) && Acceptable(Overridden(x, entry))
    ensures AmountOf(Overridden(x, entry), month, category)
      == if entry.month == month && entry.category == category then entry.amount else AmountOf(x, month, category)
  {
    var y := Overridden(x, entry);
    assert y.store.fixedCostSchedule[..|y.store.fixedCostSchedule| - 1] == x.store.fixedCostSchedule;
  }

  function FixedRaised(y: Items, amount: real, multiplier: real): Items { y.(fixedCosts := y.fixedCosts + amount * multiplier) }

  /** One more override replaces the amount of its own category in its own month, and moves nothing else in any month. */
  lemma OverrideReplacesOne(x: Input, entry: FixedCostEntry, i: nat) returns (was: real)
    requires Acceptable(x) && i < |x.forecasts|
    ensures Acceptable(Overridden(x, entry)) && WasAmount(x, entry.category, x.forecasts[i].month, was)
    ensures var before, after := Flows(x)[i].items, Flows(Overridden(x, entry))[i].items;
      if entry.month == x.forecasts[i].month then after == FixedRaised(before, entry.amount - was, x.adjustments[i].fixedCostMultiplier)
      else after == before
  {
    var p, q;
    AmountWas(x, entry.category, x.forecasts[i].month);
    was, p, q := OverrideAssembles(x, entry, i);
    FixedShift(p, q, x.adjustments[i]);
  }

  lemma FixedShift(p: Parts, q: Parts, a: Adjustment)
    requires q == p.(fixed := q.fixed)
    ensures Assembled(q, a) == FixedRaised(Assembled(p, a), q.fixed - p.fixed, a.fixedCostMultiplier)
    ensures q.fixed == p.fixed ==> Assembled(q, a) == Assembled(p, a)
  {
    TimesScales(a.fixedCostMultiplier, p.fixed, q.fixed);
  }

  ghost predicate WasAmount(x: Input, category: Category, month: int, amount: real) {
    exists h :: LatestRecord(x.store.history, h) && category in h.fixedCosts
      && AmountIs(h.fixedCosts, x.store.fixedCostSchedule, month, category, amount)
  }

  lemma AmountWas(x: Input, category: Category, month: int)
    requires Acceptable(x)
    ensures WasAmount(x, category, month, AmountOf(x, month, category))
  {
    var h := LatestHistory(x.store.history);
    LatestIsLatest(x.store.history);
    LatestIsMember(x.store.history);
    FixedCostsAre(h.fixedCosts, x.store.fixedCostSchedule, month, category);
  }

  lemma OverriddenParts(x: Input, entry: FixedCostEntry, i: nat)
    requires Acceptable(x) && Acceptable(Overridden(x, entry)) && i < |x.forecasts|
    ensures var p, q := PartsOf(x, i), PartsOf(Overridden(x, entry), i); q == p.(fixed := q.fixed)
  {
    var y := Overridden(x, entry);
    assert CombinedRateDelta(y, y.adjustments[i]) == CombinedRateDelta(x, x.adjustments[i]);
    SameDebt(x, y, i);
  }

  lemma OverrideAssembles(x: Input, entry: FixedCostEntry, i: nat) returns (was: real, p: Parts, q: Parts)
    requires Acceptable(x) && i < |x.forecasts|
    ensures Acceptable(Overridden(x, entry)) && was == AmountOf(x, x.forecasts[i].month, entry.category)
    ensures q.fixed - p.fixed == if entry.month == x.forecasts[i].month then entry.amount - was else 0.0
    ensures q == p.(fixed := q.fixed)
    ensures Flows(x)[i].items == Assembled(p, x.adjustments[i]) && Flows(Overridden(x, entry))[i].items == Assembled(q, x.adjustments[i])
  {
    was, p, q := AmountOf(x, x.forecasts[i].month, entry.category), PartsOf(x, i), PartsOf(Overridden(x, entry), i);
    FlowAssembles(x, i);
    FlowAssembles(Overridden(x, entry), i);
    OverriddenParts(x, entry, i);
    TotalMoves(x, entry, x.forecasts[i].month);
  }

  lemma TotalMoves(x: Input, entry: FixedCostEntry, month: int)
    requires Acceptable(x) && Acceptable(Overridden(x, entry))
    ensures var h := LatestHistory(x.store.history);
      var before, after := FixedCosts(h.fixedCosts, x.store.fixedCostSchedule, month), FixedCosts(h.fixedCosts, Overridden(x, entry).store.fixedCostSchedule, month);
      && before.Keys == after.Keys == {Rent, Labor, Utilities, Category.Other}
      && TotalFixed(after) - TotalFixed(before) == if entry.month == month then entry.amount - AmountOf(x, month, entry.category) else 0.0
  {
    var h := LatestHistory(x.store.history);
    LatestIsMember(x.store.history);
    FixedCostsKeys(h.fixedCosts, x.store.fixedCostSchedule, month);
    FixedCostsKeys(h.fixedCosts, Overridden(x, entry).store.fixedCostSchedule, month);
    AmountOverridden(x, entry, month, Rent);
    AmountOverridden(x, entry, month, Labor);
    AmountOverridden(x, entry, month, Utilities);
    AmountOverridden(x, entry, month, Category.Other);
    match entry.category
    case Rent =>
    case Labor =>
    case Utilities =>
    case Other =>
  }
}
