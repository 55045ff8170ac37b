/** Monthly cash flow and the date on which the cash runs out (backend/src/finance/cashflow.py). */
module CashFlow {
  import opened Wrappers
  import opened Reals
  import Calendar

  /** The signed items of one month. */
  datatype Items = Items(
    revenue: real,
    ingredientCosts: real,
    otherVariableCosts: real,
    variableCosts: real,
    fixedCosts: real,
    interest: real,
    principal: real,
    tax: real,
    capex: real,
    otherInflows: real)

  datatype CashFlow = CashFlow(monthIndex: nat, month: int, beginning: real, items: Items, net: real, ending: real)

  function NetFlow(x: Items): real {
    x.revenue - x.variableCosts - x.fixedCosts - x.interest - x.principal - x.tax - x.capex + x.otherInflows
  }

  function CalculateMonthlyCashflow(monthIndex: nat, month: int, beginning: real, items: Items): CashFlow {
    CashFlow(monthIndex, month, beginning, items, NetFlow(items), beginning + NetFlow(items))
  }

  datatype BurnDate = BurnDate(monthIndex: nat, month: int, day: int, daysToBurn: real)

  /** `liquidityMonth` stands for the first day of that month. */
  datatype CashBurn = CashBurn(burn: Option<BurnDate>, liquidityMonth: Option<int>)

  /** Position `i` is the first month that ends at or below `threshold`. */
  ghost predicate FirstAtOrBelow(flows: seq<CashFlow>, threshold: real, i: nat) {
    i < |flows| && flows[i].ending <= threshold && forall j :: 0 <= j < i ==> flows[j].ending > threshold
  }

  ghost predicate NeverAtOrBelow(flows: seq<CashFlow>, threshold: real) {
    forall j :: 0 <= j < |flows| ==> flows[j].ending > threshold
  }

  /** The burn date inside the burn month, under an even distribution of the month's net flow. */
  function DateOfBurn(x: CashFlow): BurnDate {
    var days := Calendar.DaysInMonth(x.month);
    var flow := Abs(x.net);
    if x.beginning <= 0.0 then
      BurnDate(x.monthIndex, x.month, 1, 1.0)
    else if flow > 0.0 then
      var daysToBurn := (days as real) * x.beginning / flow;
      var day := daysToBurn.Floor;
      BurnDate(x.monthIndex, x.month, if day < 1 then 1 else if days < day then days else day, daysToBurn)
    else
      BurnDate(x.monthIndex, x.month, days, days as real)
  }

  /** The burn is dated in the first month that ends without cash; the warning names the first month that ends at
      or below the minimum. */
  ghost predicate BurnIs(r: CashBurn, flows: seq<CashFlow>, minimumCash: real) {
    && (r.burn.None? <==> NeverAtOrBelow(flows, 0.0))
    && (r.burn.Some? ==> exists i: nat :: FirstAtOrBelow(flows, 0.0, i) && r.burn.value == DateOfBurn(flows[i]))
    && (r.liquidityMonth.None? <==> NeverAtOrBelow(flows, minimumCash))
    && (r.liquidityMonth.Some? ==>
          exists i: nat :: FirstAtOrBelow(flows, minimumCash, i) && r.liquidityMonth.value == flows[i].month)
  }

  method EvaluateCashBurn(flows: seq<CashFlow>, minimumCash: real) returns (r: CashBurn)
    ensures BurnIs(r, flows, minimumCash)
  {
    var burn: Option<nat> := None;
    var liquidity: Option<nat> := None;
    for i := 0 to |flows|
      invariant burn.None? ==> forall j :: 0 <= j < i ==> flows[j].ending > 0.0
      invariant burn.Some? ==> burn.value < i && FirstAtOrBelow(flows, 0.0, burn.value)
      invariant liquidity.None? ==> forall j :: 0 <= j < i ==> flows[j].ending > minimumCash
      invariant liquidity.Some? ==> liquidity.value < i && FirstAtOrBelow(flows, minimumCash, liquidity.value)
    {
      if flows[i].ending <= 0.0 && burn.None? {
        burn := Some(i);
      }
      if flows[i].ending <= minimumCash && liquidity.None? {
        liquidity := Some(i);
      }
    }
    r := CashBurn(
      if burn.Some? then Some(DateOfBurn(flows[burn.value])) else None,
      if liquidity.Some? then Some(flows[liquidity.value].month) else None);
  }

  ghost predicate Linked(initial: real, flows: seq<CashFlow>, i: nat)
    requires i < |flows|
  {
    && flows[i].beginning == (if i == 0 then initial else flows[i - 1].ending)
    && flows[i].net == NetFlow(flows[i].items)
    && flows[i].ending == flows[i].beginning + flows[i].net
  }

  /** Each month begins with the cash that the month before ended with. */
  ghost predicate Chain(initial: real, flows: seq<CashFlow>) {
    forall i :: 0 <= i < |flows| ==> Linked(initial, flows, i)
  }

  ghost predicate MonthsAscend(flows: seq<CashFlow>) {
    forall i, j :: 0 <= i < j < |flows| ==> flows[i].month < flows[j].month
  }

  function TotalNet(flows: seq<CashFlow>): real {
    if flows == [] then 0.0 else TotalNet(flows[..|flows| - 1]) + flows[|flows| - 1].net
  }

  /** Every month ends with the initial cash plus all net flows so far. */
  lemma {:induction false} EndingIsInitialPlusNet(initial: real, flows: seq<CashFlow>, k: nat)
    requires Chain(initial, flows) && 0 < k <= |flows|
    ensures flows[k - 1].ending == initial + TotalNet(flows[..k])
  {
    assert Linked(initial, flows, k - 1);
    if k > 1 {
      EndingIsInitialPlusNet(initial, flows, k - 1);
      assert flows[..k][..k - 1] == flows[..k - 1];
    } else {
      assert flows[..1][..0] == [];
      assert TotalNet(flows[..1]) == flows[..1][0].net;
    }
  }

  lemma DaysFraction(days: int, beginning: real, flow: real)
    requires days > 0 && 0.0 < beginning <= flow
    ensures 0.0 < (days as real) * beginning / flow <= days as real
    ensures 0 <= ((days as real) * beginning / flow).Floor <= days
  {
    var d := days as real;
    MulMonotone(d, d, beginning, flow);
    QuotientAtMost(d * beginning, flow, d);
    QuotientAtMost(d * beginning, flow, 0.0);
    assert d * beginning > 0.0;
  }

  /** On a chained path the liquidity warning never comes after the burn month; a burn month begins with positive
      cash unless it is the first month of a store without cash; it then has a negative flow, so the zero-flow
      branch is unreachable and the cap at the month's length never binds; and the burn day exists in its month. */
  lemma BurnOnChainedPath(initial: real, flows: seq<CashFlow>, minimumCash: real, b: nat)
    requires Chain(initial, flows) && initial >= 0.0 && minimumCash >= 0.0
    requires FirstAtOrBelow(flows, 0.0, b)
    ensures exists l: nat :: l <= b && FirstAtOrBelow(flows, minimumCash, l)
    ensures flows[b].beginning <= 0.0 ==> b == 0 && initial == 0.0
    ensures flows[b].beginning > 0.0 ==> flows[b].net < 0.0 && DateOfBurn(flows[b]).daysToBurn <= Calendar.DaysInMonth(flows[b].month) as real
    ensures 1 <= DateOfBurn(flows[b]).day <= Calendar.DaysInMonth(flows[b].month)
    ensures flows[b].beginning > 0.0 ==> DateOfBurn(flows[b]).day == 1 || DateOfBurn(flows[b]).day == DateOfBurn(flows[b]).daysToBurn.Floor
  {
    FirstExists(flows, minimumCash, b);
    assert Linked(initial, flows, b);
    assert b > 0 ==> flows[b - 1].ending > 0.0;
    if flows[b].beginning > 0.0 {
      DaysFraction(Calendar.DaysInMonth(flows[b].month), flows[b].beginning, Abs(flows[b].net));
    }
  }

  /** The cash of a month after `days` of its days, when its net flow is spread evenly over them. */
  function CashAfter(x: CashFlow, days: real): real { x.beginning + x.net * (days / (Calendar.DaysInMonth(x.month) as real)) }

  lemma CashLeft(beginning: real, net: real, length: real, days: real, d: real)
    requires net < 0.0 && length > 0.0 && days * (-net) == length * beginning
    ensures (beginning + net * (d / length)) * length == (days - d) * (-net)
    ensures d <= days <==> beginning + net * (d / length) >= 0.0
    ensures d == days ==> beginning + net * (d / length) == 0.0
  {
    var share, left := d / length, beginning + net * (d / length);
    assert share * length == d;
    assert net * share * length == net * d;
    assert left * length == length * beginning + net * d == (days - d) * (-net);
    if d <= days { MulNonNegative(days - d, -net); }
    if left >= 0.0 { MulNonNegative(left, length); }
    if d > days { assert (d - days) * (-net) > 0.0; }
    if left < 0.0 { assert (-left) * length > 0.0; }
  }

  lemma CashAfterIs(x: CashFlow, d: real)
    requires x.beginning > 0.0 && x.net < 0.0
    ensures d <= DateOfBurn(x).daysToBurn <==> CashAfter(x, d) >= 0.0
    ensures d == DateOfBurn(x).daysToBurn ==> CashAfter(x, d) == 0.0
  {
    var length := Calendar.DaysInMonth(x.month) as real;
    var days := length * x.beginning / (-x.net);
    assert days == DateOfBurn(x).daysToBurn;
    assert days * (-x.net) == length * x.beginning;
    CashLeft(x.beginning, x.net, length, days, d);
  }

  lemma BurnDayIs(x: CashFlow)
    requires x.beginning > 0.0 && x.net < 0.0
    ensures var d := DateOfBurn(x);
      && (1 < d.day ==> d.day as real <= d.daysToBurn)
      && (d.day < Calendar.DaysInMonth(x.month) ==> d.daysToBurn < (d.day + 1) as real)
  {
  }

  /** The burn date: in a month that begins with cash and loses it, the days to burn are those after which exactly nothing is
      left, and the burn day is the last day of the month after which the cash is not yet negative, or the first; a month that
      begins without cash burns on its first day. */
  lemma BurnDayRunsOut(x: CashFlow)
    requires x.net < 0.0 || x.beginning <= 0.0
    ensures var d := DateOfBurn(x);
      && d.monthIndex == x.monthIndex && d.month == x.month
      && (x.beginning <= 0.0 ==> d.day == 1 && d.daysToBurn == 1.0)
      && (x.beginning > 0.0 ==> CashAfter(x, d.daysToBurn) == 0.0)
      && (x.beginning > 0.0 && 1 < d.day ==> CashAfter(x, d.day as real) >= 0.0)
      && (x.beginning > 0.0 && d.day < Calendar.DaysInMonth(x.month) ==> CashAfter(x, (d.day + 1) as real) < 0.0)
  {
    if x.beginning > 0.0 {
      var d := DateOfBurn(x);
      BurnDayIs(x);
      CashAfterIs(x, d.daysToBurn);
      CashAfterIs(x, d.day as real);
      CashAfterIs(x, (d.day + 1) as real);
    }
  }

  lemma {:induction false} FirstExists(flows: seq<CashFlow>, threshold: real, b: nat)
    requires b < |flows| && flows[b].ending <= threshold
    ensures exists l: nat :: l <= b && FirstAtOrBelow(flows, threshold, l)
  {
    if j: nat :| j < b && flows[j].ending <= threshold {
      FirstExists(flows, threshold, j);
    } else {
      assert FirstAtOrBelow(flows, threshold, b);
    }
  }
}
