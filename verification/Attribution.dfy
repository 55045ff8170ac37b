/** The comparison of two scenario layers and its attribution to nine components
    (`_forecast_comparison` in backend/src/orchestration/analysis_orchestrator.py). */
module Attribution {
  import opened CashFlow
  import opened Reals
  import opened Sorting
  import opened Scenario

  datatype MonthDelta = MonthDelta(month: int, revenue: real, ingredientCost: real, interest: real, net: real, ending: real)

  datatype Comparison = Comparison(months: seq<MonthDelta>, endingDelta: real, components: seq<real>)

  /** The flow recorded for each month; with repeated months the last one stays. */
  function Table(flows: seq<CashFlow>): map<int, CashFlow> {
    if flows == [] then map[] else Table(flows[..|flows| - 1])[flows[|flows| - 1].month := flows[|flows| - 1]]
  }

  method TableByMonth(flows: seq<CashFlow>) returns (table: map<int, CashFlow>)
    ensures table == Table(flows)
  {
    table := map[];
    for i := 0 to |flows|
      invariant table == Table(flows[..i])
    {
      assert flows[..i + 1][..i] == flows[..i];
      table := table[flows[i].month := flows[i]];
    }
    assert flows[..|flows|] == flows;
  }

  function MonthsIn(flows: seq<CashFlow>, table: map<int, CashFlow>): seq<int> {
    if flows == [] then []
    else (if flows[0].month in table then [flows[0].month] else []) + MonthsIn(flows[1..], table)
  }

  lemma {:induction false} MonthsInMember(flows: seq<CashFlow>, table: map<int, CashFlow>, m: int)
    ensures m in MonthsIn(flows, table) <==> m in table && exists i :: 0 <= i < |flows| && flows[i].month == m
  {
    if flows != [] {
      MonthsInMember(flows[1..], table, m);
      if i :| 0 <= i < |flows| && flows[i].month == m && i > 0 {
        assert flows[1..][i - 1].month == m;
      }
    }
  }

  lemma {:induction false} TableKeys(flows: seq<CashFlow>, m: int)
    ensures m in Table(flows) <==> exists i :: 0 <= i < |flows| && flows[i].month == m
  {
    if flows != [] {
      var rest := flows[..|flows| - 1];
      TableKeys(rest, m);
      assert forall i :: 0 <= i < |rest| ==> rest[i] == flows[i];
      if i :| 0 <= i < |flows| && flows[i].month == m && i < |flows| - 1 {
        assert rest[i].month == m;
      }
    }
  }

  /** The ascending list of the months that both layers have. */
  function SharedMonths(base: seq<CashFlow>, comparison: seq<CashFlow>): seq<int> {
    SortedDistinct(MonthsIn(base, Table(comparison)))
  }

  lemma SharedMonthsAreShared(base: seq<CashFlow>, comparison: seq<CashFlow>, m: int)
    ensures m in SharedMonths(base, comparison) <==> m in Table(base) && m in Table(comparison)
  {
    SortedDistinctSorts(MonthsIn(base, Table(comparison)));
    MonthsInMember(base, Table(comparison), m);
    TableKeys(base, m);
  }

  /** Signed effect on cash of one component, in the order in which they are reported. */
  function Effect(component: nat, base: Items, comparison: Items): real {
    match component
    case 0 => comparison.revenue - base.revenue
    case 1 => base.ingredientCosts - comparison.ingredientCosts
    case 2 => base.otherVariableCosts - comparison.otherVariableCosts
    case 3 => base.fixedCosts - comparison.fixedCosts
    case 4 => base.interest - comparison.interest
    case 5 => base.principal - comparison.principal
    case 6 => base.tax - comparison.tax
    case 7 => base.capex - comparison.capex
    case _ => comparison.otherInflows - base.otherInflows
  }

  function EffectSum(component: nat, months: seq<int>, left: map<int, CashFlow>, right: map<int, CashFlow>): real
    requires forall m :: m in months ==> m in left && m in right
  {
    if months == [] then 0.0
    else
      var m := months[|months| - 1];
      EffectSum(component, months[..|months| - 1], left, right) + Effect(component, left[m].items, right[m].items)
  }

  function DeltaOf(left: CashFlow, right: CashFlow): MonthDelta {
    MonthDelta(
      left.month,
      right.items.revenue - left.items.revenue,
      right.items.ingredientCosts - left.items.ingredientCosts,
      right.items.interest - left.items.interest,
      right.net - left.net,
      right.ending - left.ending)
  }

  /** One delta for each shared month, the last of which is the reported difference in ending cash, and the effects of
      the nine components. */
  ghost predicate Compares(base: seq<CashFlow>, comparison: seq<CashFlow>, r: Comparison) {
    var months, left, right := SharedMonths(base, comparison), Table(base), Table(comparison);
    && (forall m :: m in months ==> m in left && m in right)
    && |r.months| == |months|
    && (forall k :: 0 <= k < |months| ==>
          && months[k] in left && months[k] in right
          && r.months[k] == DeltaOf(left[months[k]], right[months[k]]).(month := months[k]))
    && r.endingDelta == (if months == [] then 0.0 else r.months[|months| - 1].ending)
    && r.components == seq(9, c requires 0 <= c < 9 => EffectSum(c, months, left, right))
  }

  method ForecastComparison(base: seq<CashFlow>, comparison: seq<CashFlow>) returns (r: Comparison)
    ensures Compares(base, comparison, r)
  {
    var left := TableByMonth(base);
    var right := TableByMonth(comparison);
    var months := SharedMonths(base, comparison);
    forall m | m in months ensures m in left && m in right { SharedMonthsAreShared(base, comparison, m); }
    var deltas: seq<MonthDelta> := [];
    for k := 0 to |months|
      invariant |deltas| == k
      invariant forall j :: 0 <= j < k ==> months[j] in months && deltas[j] == DeltaOf(left[months[j]], right[months[j]]).(month := months[j])
    {
      assert months[k] in months;
      deltas := deltas + [DeltaOf(left[months[k]], right[months[k]]).(month := months[k])];
    }
    r := Comparison(
      deltas,
      if deltas == [] then 0.0 else deltas[|deltas| - 1].ending,
      seq(9, c requires 0 <= c < 9 => EffectSum(c, months, left, right)));
  }

  /** The split of variable cost that every scenario month has. */
  ghost predicate SplitsVariableCost(flows: seq<CashFlow>) {
    forall i :: 0 <= i < |flows| ==>
      flows[i].items.variableCosts == flows[i].items.ingredientCosts + flows[i].items.otherVariableCosts
  }

  function AllEffects(base: Items, comparison: Items): real {
    Sum(seq(9, c requires 0 <= c < 9 => Effect(c, base, comparison)))
  }

  lemma SumOfNine(s: seq<real>)
    requires |s| == 9
    ensures Sum(s) == s[0] + s[1] + s[2] + s[3] + s[4] + s[5] + s[6] + s[7] + s[8]
  {
    assert s[..8][..7] == s[..7] && s[..7][..6] == s[..6] && s[..6][..5] == s[..5] && s[..5][..4] == s[..4];
    assert s[..4][..3] == s[..3] && s[..3][..2] == s[..2] && s[..2][..1] == s[..1] && s[..1][..0] == [];
    assert Sum(s[..1]) == s[0];
    assert Sum(s[..2]) == Sum(s[..1]) + s[1];
    assert Sum(s[..3]) == Sum(s[..2]) + s[2];
    assert Sum(s[..4]) == Sum(s[..3]) + s[3];
    assert Sum(s[..5]) == Sum(s[..4]) + s[4];
    assert Sum(s[..6]) == Sum(s[..5]) + s[5];
    assert Sum(s[..7]) == Sum(s[..6]) + s[6];
    assert Sum(s[..8]) == Sum(s[..7]) + s[7];
  }

  lemma EffectsAreNetChange(base: Items, comparison: Items)
    requires base.variableCosts == base.ingredientCosts + base.otherVariableCosts
    requires comparison.variableCosts == comparison.ingredientCosts + comparison.otherVariableCosts
    ensures AllEffects(base, comparison) == NetFlow(comparison) - NetFlow(base)
  {
    SumOfNine(seq(9, c requires 0 <= c < 9 => Effect(c, base, comparison)));
  }

  /** Components summed over months and then over components, month by month. */
  lemma EffectSumStep(months: seq<int>, left: map<int, CashFlow>, right: map<int, CashFlow>)
    requires months != [] && forall m :: m in months ==> m in left && m in right
    ensures var init, m := months[..|months| - 1], months[|months| - 1];
      ComponentTotal(months, left, right) == ComponentTotal(init, left, right) + AllEffects(left[m].items, right[m].items)
  {
    var init, m := months[..|months| - 1], months[|months| - 1];
    SumOfNine(seq(9, c requires 0 <= c < 9 => EffectSum(c, months, left, right)));
    SumOfNine(seq(9, c requires 0 <= c < 9 => EffectSum(c, init, left, right)));
    SumOfNine(seq(9, c requires 0 <= c < 9 => Effect(c, left[m].items, right[m].items)));
  }

  function ComponentTotal(months: seq<int>, left: map<int, CashFlow>, right: map<int, CashFlow>): real
    requires forall m :: m in months ==> m in left && m in right
  {
    Sum(seq(9, c requires 0 <= c < 9 => EffectSum(c, months, left, right)))
  }

  ghost predicate SameMonths(base: seq<CashFlow>, comparison: seq<CashFlow>) {
    && |base| == |comparison|
    && forall i :: 0 <= i < |base| ==> base[i].month == comparison[i].month
  }

  lemma {:induction false} TableOfDistinct(flows: seq<CashFlow>, i: nat)
    requires MonthsAscend(flows) && i < |flows|
    ensures flows[i].month in Table(flows) && Table(flows)[flows[i].month] == flows[i]
  {
    if i < |flows| - 1 {
      TableOfDistinct(flows[..|flows| - 1], i);
    }
  }

  function MonthList(flows: seq<CashFlow>): seq<int> {
    seq(|flows|, i requires 0 <= i < |flows| => flows[i].month)
  }

  lemma SharedMonthsOfAligned(base: seq<CashFlow>, comparison: seq<CashFlow>)
    requires SameMonths(base, comparison) && MonthsAscend(base)
    ensures SharedMonths(base, comparison) == MonthList(base)
  {
    var shared, listed := SharedMonths(base, comparison), MonthList(base);
    SortedDistinctSorts(MonthsIn(base, Table(comparison)));
    forall m ensures m in shared <==> m in listed {
      SharedMonthsAreShared(base, comparison, m);
      TableKeys(base, m);
      TableKeys(comparison, m);
      if m in listed {
        var i :| 0 <= i < |base| && listed[i] == m;
        assert base[i].month == m && comparison[i].month == m;
      }
      if m in shared {
        var i :| 0 <= i < |base| && base[i].month == m;
        assert listed[i] == m;
      }
    }
    StrictlyIncreasingUnique(shared, listed);
  }

  lemma {:induction false} ComponentTotalIsNet(base: seq<CashFlow>, comparison: seq<CashFlow>, initial: real, k: nat)
    requires Chain(initial, base) && Chain(initial, comparison)
    requires SameMonths(base, comparison) && MonthsAscend(base) && k <= |base|
    requires SplitsVariableCost(base) && SplitsVariableCost(comparison)
    requires forall m :: m in MonthList(base)[..k] ==> m in Table(base) && m in Table(comparison)
    ensures ComponentTotal(MonthList(base)[..k], Table(base), Table(comparison)) == TotalNet(comparison[..k]) - TotalNet(base[..k])
  {
    var months := MonthList(base)[..k];
    if k == 0 {
      SumOfNine(seq(9, c requires 0 <= c < 9 => EffectSum(c, months, Table(base), Table(comparison))));
    } else {
      assert months[..k - 1] == MonthList(base)[..k - 1];
      ComponentTotalIsNet(base, comparison, initial, k - 1);
      EffectSumStep(months, Table(base), Table(comparison));
      TableOfDistinct(base, k - 1);
      TableOfDistinct(comparison, k - 1);
      assert Linked(initial, base, k - 1) && Linked(initial, comparison, k - 1);
      EffectsAreNetChange(base[k - 1].items, comparison[k - 1].items);
      assert base[..k][..k - 1] == base[..k - 1] && comparison[..k][..k - 1] == comparison[..k - 1];
    }
  }

  /** The nine components add up to the last month's difference in ending cash. */
  lemma AttributionIsExact(base: seq<CashFlow>, comparison: seq<CashFlow>, initial: real)
    requires Chain(initial, base) && Chain(initial, comparison)
    requires SameMonths(base, comparison) && MonthsAscend(base)
    requires SplitsVariableCost(base) && SplitsVariableCost(comparison)
    ensures forall m :: m in SharedMonths(base, comparison) ==> m in Table(base) && m in Table(comparison)
    ensures ComponentTotal(SharedMonths(base, comparison), Table(base), Table(comparison))
      == if base == [] then 0.0 else comparison[|base| - 1].ending - base[|base| - 1].ending
  {
    SharedMonthsOfAligned(base, comparison);
    forall m | m in SharedMonths(base, comparison) ensures m in Table(base) && m in Table(comparison) {
      SharedMonthsAreShared(base, comparison, m);
    }
    var n := |base|;
    assert MonthList(base)[..n] == MonthList(base) && base[..n] == base && comparison[..n] == comparison;
    ComponentTotalIsNet(base, comparison, initial, n);
    if n > 0 {
      EndingIsInitialPlusNet(initial, base, n);
      EndingIsInitialPlusNet(initial, comparison, n);
    }
  }

  /** In a comparison of two cash chains over the same ascending months, the nine components add up to the reported
      difference in ending cash. */
  lemma ComponentsSumToEndingDelta(base: seq<CashFlow>, comparison: seq<CashFlow>, initial: real, r: Comparison)
    requires Chain(initial, base) && Chain(initial, comparison)
    requires SameMonths(base, comparison) && MonthsAscend(base)
    requires SplitsVariableCost(base) && SplitsVariableCost(comparison)
    requires Compares(base, comparison, r)
    ensures Sum(r.components) == r.endingDelta
    ensures base != [] ==> r.endingDelta == comparison[|base| - 1].ending - base[|base| - 1].ending
  {
    SharedMonthsOfAligned(base, comparison);
    AttributionIsExact(base, comparison, initial);
    assert Sum(r.components) == ComponentTotal(SharedMonths(base, comparison), Table(base), Table(comparison));
    if base != [] {
      var last := |base| - 1;
      assert SharedMonths(base, comparison)[last] == base[last].month == comparison[last].month;
      TableOfDistinct(base, last);
      TableOfDistinct(comparison, last);
    }
  }

  /** Two scenarios of one store over the same ascending months: the components that their comparison reports add up to
      the difference that it reports in ending cash. */
  lemma ScenarioAttributionIsExact(x: Input, y: Input, r: Comparison)
    requires Acceptable(x) && Acceptable(y)
    requires x.store.currentCash == y.store.currentCash && |x.forecasts| == |y.forecasts|
    requires forall i :: 0 <= i < |x.forecasts| ==> x.forecasts[i].month == y.forecasts[i].month
    requires forall i, j :: 0 <= i < j < |x.forecasts| ==> x.forecasts[i].month < x.forecasts[j].month
    requires Compares(Flows(x), Flows(y), r)
    ensures Sum(r.components) == r.endingDelta
    ensures var base, comparison := Flows(x), Flows(y);
      r.endingDelta == comparison[|base| - 1].ending - base[|base| - 1].ending
  {
    ScenarioIsCashChain(x);
    ScenarioIsCashChain(y);
    ComponentsSumToEndingDelta(Flows(x), Flows(y), x.store.currentCash, r);
  }
}
