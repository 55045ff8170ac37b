/** Which item each component of a comparison of two layers is about, and what each month's differences are. */
module AttributionItems {
  import opened CashFlow
  import opened Sorting
  import opened Attribution

  /** How much more of an item the other layer has over the given months. */
  ghost function More(item: Items -> real, months: seq<int>, left: map<int, CashFlow>, right: map<int, CashFlow>): real
    requires forall m :: m in months ==> m in left && m in right
  {
    if months == [] then 0.0
    else
      var m := months[|months| - 1];
      More(item, months[..|months| - 1], left, right) + (item(right[m].items) - item(left[m].items))
  }

  lemma {:induction false} InflowSum(component: nat, item: Items -> real, months: seq<int>, left: map<int, CashFlow>, right: map<int, CashFlow>)
    requires forall m :: m in months ==> m in left && m in right
    requires forall x: Items, y: Items :: Effect(component, x, y) == item(y) - item(x)
    ensures EffectSum(component, months, left, right) == More(item, months, left, right)
  {
    if months != [] { InflowSum(component, item, months[..|months| - 1], left, right); }
  }

  lemma {:induction false} OutflowSum(component: nat, item: Items -> real, months: seq<int>, left: map<int, CashFlow>, right: map<int, CashFlow>)
    requires forall m :: m in months ==> m in left && m in right
    requires forall x: Items, y: Items :: Effect(component, x, y) == item(x) - item(y)
    ensures EffectSum(component, months, left, right) == -More(item, months, left, right)
  {
    if months != [] { OutflowSum(component, item, months[..|months| - 1], left, right); }
  }

  /** More revenue and other inflow counts for the other layer, more of any cost, debt service, tax or investment against it. */
  ghost predicate ComponentsOf(cs: seq<real>, months: seq<int>, left: map<int, CashFlow>, right: map<int, CashFlow>)
    requires forall m :: m in months ==> m in left && m in right
  {
    && |cs| == 9
    && cs[0] == More((x: Items) => x.revenue, months, left, right)
    && cs[1] == -More((x: Items) => x.ingredientCosts, months, left, right)
    && cs[2] == -More((x: Items) => x.otherVariableCosts, months, left, right)
    && cs[3] == -More((x: Items) => x.fixedCosts, months, left, right)
    && cs[4] == -More((x: Items) => x.interest, months, left, right)
    && cs[5] == -More((x: Items) => x.principal, months, left, right)
    && cs[6] == -More((x: Items) => x.tax, months, left, right)
    && cs[7] == -More((x: Items) => x.capex, months, left, right)
    && cs[8] == More((x: Items) => x.otherInflows, months, left, right)
  }

  /** The nine components, each about its own item, over exactly the months that both layers have. */
  lemma ComponentsAre(base: seq<CashFlow>, comparison: seq<CashFlow>, r: Comparison)
    requires Compares(base, comparison, r)
    ensures var months := SharedMonths(base, comparison);
      && StrictlyIncreasing(months)
      && (forall m :: m in months <==> (exists f :: f in base && f.month == m) && (exists f :: f in comparison && f.month == m))
      && (forall m :: m in months ==> m in Table(base) && m in Table(comparison))
      && ComponentsOf(r.components, months, Table(base), Table(comparison))
  {
    var months, left, right := SharedMonths(base, comparison), Table(base), Table(comparison);
    SortedDistinctSorts(MonthsIn(base, right));
    forall m ensures m in months <==> (exists f :: f in base && f.month == m) && (exists f :: f in comparison && f.month == m) {
      SharedMonthsAreShared(base, comparison, m);
      MonthRecorded(base, m);
      MonthRecorded(comparison, m);
    }
    InflowSum(0, (x: Items) => x.revenue, months, left, right);
    OutflowSum(1, (x: Items) => x.ingredientCosts, months, left, right);
    OutflowSum(2, (x: Items) => x.otherVariableCosts, months, left, right);
    OutflowSum(3, (x: Items) => x.fixedCosts, months, left, right);
    OutflowSum(4, (x: Items) => x.interest, months, left, right);
    OutflowSum(5, (x: Items) => x.principal, months, left, right);
    OutflowSum(6, (x: Items) => x.tax, months, left, right);
    OutflowSum(7, (x: Items) => x.capex, months, left, right);
    InflowSum(8, (x: Items) => x.otherInflows, months, left, right);
  }

  lemma MonthRecorded(flows: seq<CashFlow>, m: int)
    ensures m in Table(flows) <==> exists f :: f in flows && f.month == m
  {
    TableKeys(flows, m);
    if f :| f in flows && f.month == m {
      var i :| 0 <= i < |flows| && flows[i] == f;
    }
    if i :| 0 <= i < |flows| && flows[i].month == m { assert flows[i] in flows; }
  }

  /** A month's recorded flow is the last one of that month. */
  lemma {:induction false} RecordedIsLast(flows: seq<CashFlow>, m: int) returns (i: nat)
    requires m in Table(flows)
    ensures i < |flows| && flows[i].month == m && Table(flows)[m] == flows[i]
    ensures forall j :: i < j < |flows| ==> flows[j].month != m
  {
    var last := |flows| - 1;
    if flows[last].month == m {
      i := last;
    } else {
      i := RecordedIsLast(flows[..last], m);
      assert forall j :: i < j < last ==> flows[..last][j] == flows[j];
    }
  }

  /** Each month's differences in revenue, ingredient cost, interest, net flow and ending cash, the other layer less the base. */
  lemma MonthsAre(base: seq<CashFlow>, comparison: seq<CashFlow>, r: Comparison, k: nat) returns (x: CashFlow, y: CashFlow)
    requires Compares(base, comparison, r) && k < |r.months|
    ensures x in base && y in comparison && x.month == y.month == r.months[k].month
    ensures r.months[k].revenue == y.items.revenue - x.items.revenue
    ensures r.months[k].ingredientCost == y.items.ingredientCosts - x.items.ingredientCosts
    ensures r.months[k].interest == y.items.interest - x.items.interest
    ensures r.months[k].net == y.net - x.net && r.months[k].ending == y.ending - x.ending
    ensures k == |r.months| - 1 ==> r.endingDelta == y.ending - x.ending
  {
    var m := SharedMonths(base, comparison)[k];
    assert m in SharedMonths(base, comparison);
    var i := RecordedIsLast(base, m);
    var j := RecordedIsLast(comparison, m);
    x, y := base[i], comparison[j];
  }
}
