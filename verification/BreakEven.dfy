/** Break-even revenues of one month (backend/src/finance/break_even.py). */
module BreakEven {
  import opened CashFlow
  import opened Reals

  datatype Bep =
    | Unattainable(marginRatio: real)
    | Normal(marginRatio: real, operating: real, financial: real, cash: real)

  function CalculateBep(revenue: real, variableCost: real, fixedCost: real, interest: real, principal: real, tax: real, capex: real): Bep {
    var marginRatio := if revenue <= 0.0 then 0.0 else 1.0 - variableCost / revenue;
    if marginRatio <= 0.0 then Unattainable(marginRatio)
    else
      Normal(
        marginRatio,
        fixedCost / marginRatio,
        (fixedCost + interest) / marginRatio,
        (fixedCost + interest + principal + tax + capex) / marginRatio)
  }

  function BepOf(x: Items): Bep {
    CalculateBep(x.revenue, x.variableCosts, x.fixedCosts, x.interest, x.principal, x.tax, x.capex)
  }

  /** Revenue reaches the cash break-even exactly when the month's net flow is not negative, and the break-even is
      attainable exactly when there is revenue above the variable cost. */
  lemma CashBreakEvenIsZeroNetFlow(x: Items)
    requires x.otherInflows == 0.0
    ensures BepOf(x).Normal? <==> x.revenue > 0.0 && x.variableCosts < x.revenue
    ensures BepOf(x).Normal? ==> (BepOf(x).cash <= x.revenue <==> NetFlow(x) >= 0.0)
    ensures BepOf(x).Normal? && x.interest >= 0.0 && x.principal + x.tax + x.capex >= 0.0 ==>
      BepOf(x).operating <= BepOf(x).financial <= BepOf(x).cash
  {
    if x.revenue > 0.0 {
      var v := x.variableCosts / x.revenue;
      assert v * x.revenue == x.variableCosts;
      MarginSign(v, x.revenue);
      var m := 1.0 - v;
      if m > 0.0 {
        var outflow := x.fixedCosts + x.interest + x.principal + x.tax + x.capex;
        assert x.revenue * m == x.revenue - x.variableCosts;
        QuotientAtMost(outflow, m, x.revenue);
        QuotientMonotone(x.fixedCosts, x.fixedCosts + x.interest, m);
        QuotientMonotone(x.fixedCosts + x.interest, outflow, m);
      }
    }
  }

  /** The margin is what a unit of revenue leaves over its variable cost; without revenue there is none. */
  lemma MarginIs(x: Items)
    ensures BepOf(x).marginRatio * x.revenue == if x.revenue > 0.0 then x.revenue - x.variableCosts else 0.0
    ensures x.revenue <= 0.0 ==> BepOf(x).marginRatio == 0.0
  {
    if x.revenue > 0.0 {
      var v := x.variableCosts / x.revenue;
      assert v * x.revenue == x.variableCosts;
      assert (1.0 - v) * x.revenue == x.revenue - v * x.revenue;
    }
  }

  /** A month of revenue `b` at the same share of variable costs. */
  function AtRevenue(x: Items, b: real): Items
    requires x.revenue > 0.0
  {
    x.(revenue := b, variableCosts := b * (x.variableCosts / x.revenue))
  }

  /** What revenue is for: the operating costs, with them the interest, and with these every payment of the month. */
  function OperatingResult(x: Items): real { x.revenue - x.variableCosts - x.fixedCosts }

  function FinancialResult(x: Items): real { x.revenue - x.variableCosts - x.fixedCosts - x.interest }

  lemma MeetsAt(revenue: real, cost: real, margin: real, v: real, outflow: real)
    requires revenue > 0.0 && v * revenue == cost && margin == 1.0 - v && margin > 0.0
    ensures outflow / margin <= revenue <==> revenue - cost - outflow >= 0.0
    ensures outflow / margin - (outflow / margin) * v - outflow == 0.0
  {
    assert revenue * margin == revenue - cost;
    QuotientAtMost(outflow, margin, revenue);
    var b := outflow / margin;
    assert b * margin == outflow;
    assert b * margin == b - b * v;
  }

  /** Each break-even is the revenue at which, the share of variable costs staying as it is, its result comes to nothing, and
      the month reaches it exactly when that result is not negative. */
  lemma BreakEvensComeToNothing(x: Items)
    requires BepOf(x).Normal? && x.otherInflows == 0.0
    ensures x.revenue > 0.0
    ensures var b := BepOf(x);
      && OperatingResult(AtRevenue(x, b.operating)) == 0.0
      && FinancialResult(AtRevenue(x, b.financial)) == 0.0
      && NetFlow(AtRevenue(x, b.cash)) == 0.0
    ensures var b := BepOf(x);
      && (b.operating <= x.revenue <==> OperatingResult(x) >= 0.0)
      && (b.financial <= x.revenue <==> FinancialResult(x) >= 0.0)
      && (b.cash <= x.revenue <==> NetFlow(x) >= 0.0)
  {
    var v, m := x.variableCosts / x.revenue, BepOf(x).marginRatio;
    assert v * x.revenue == x.variableCosts;
    MeetsAt(x.revenue, x.variableCosts, m, v, x.fixedCosts);
    MeetsAt(x.revenue, x.variableCosts, m, v, x.fixedCosts + x.interest);
    MeetsAt(x.revenue, x.variableCosts, m, v, x.fixedCosts + x.interest + x.principal + x.tax + x.capex);
  }

  lemma MarginSign(v: real, revenue: real)
    requires revenue > 0.0
    ensures v < 1.0 <==> v * revenue < revenue
  {
    assert (1.0 - v) * revenue == revenue - v * revenue;
    if v > 1.0 { assert (v - 1.0) * revenue > 0.0; }
  }
}
