/** What a plain discount or grant does to the cash path: it never brings the burn date forward. */
module ReliefRunway {
  import opened Wrappers
  import opened Reals
  import opened Calendar
  import opened Loan
  import opened LoanMonotone
  import opened CashFlow
  import opened Scenario
  import opened Relief

  // ---------- debt service ----------

  function DebtDue(schedules: seq<seq<Payment>>, i: nat): real { InterestDue(schedules, i) + PrincipalDue(schedules, i) }

  lemma LastDebt(x: Input, delta: real, n: nat, i: nat)
    requires x.forecasts != [] && 0 < n <= |x.store.loans| && i < |x.adjustments| && SchedulesUpTo(x, delta, n).Success?
    ensures var loan := x.store.loans[n - 1];
      var schedule := Schedule(loan, TermsOf(x, loan, delta), |x.adjustments|);
      && SchedulesUpTo(x, delta, n - 1).Success? && schedule.Success?
      && DebtDue(SchedulesUpTo(x, delta, n).value, i)
         == DebtDue(SchedulesUpTo(x, delta, n - 1).value, i) + schedule.value[i].interest + schedule.value[i].principal
  {
    assert SchedulesUpTo(x, delta, n).value[..n - 1] == SchedulesUpTo(x, delta, n - 1).value;
  }

  lemma {:induction false} DiscountedDebtOrdered(x: Input, y: Input, discount: real, delta: real, n: nat, i: nat)
    requires Acceptable(x) && discount >= 0.0 && PlainDiscount(x, y, discount)
    requires n <= |x.store.loans| && i < |x.forecasts| && SchedulesUpTo(x, delta, n).Success?
    ensures SchedulesUpTo(y, delta, n).Success?
    ensures DebtDue(SchedulesUpTo(y, delta, n).value, i) <= DebtDue(SchedulesUpTo(x, delta, n).value, i)
  {
    if n > 0 {
      DiscountedDebtOrdered(x, y, discount, delta, n - 1, i);
      DiscountedSchedulesOrdered(x, y, discount, delta, n, i);
      var loan := x.store.loans[n - 1];
      var terms := TermsOf(x, loan, delta);
      assert TermsOf(y, y.store.loans[n - 1], delta) == terms;
      RaisingRateRaisesSchedule(Discounted(loan, discount), terms, loan, terms, |x.adjustments|);
      LastDebt(x, delta, n, i);
      LastDebt(y, delta, n, i);
    }
  }

  // ---------- the cash path ----------

  ghost predicate PathsOrdered(base: seq<CashFlow>, flows: seq<CashFlow>, i: nat)
    requires i < |base| == |flows|
  {
    && base[i].beginning <= flows[i].beginning && base[i].net <= flows[i].net && base[i].ending <= flows[i].ending
    && flows[i].month == base[i].month
  }

  lemma NetOrdered(x: Input, y: Input, discount: real, i: nat)
    requires Acceptable(x) && Complaint(x).None? && discount >= 0.0 && PlainDiscount(x, y, discount) && i < |x.forecasts|
    ensures Acceptable(y) && NetFlow(MonthItems(x, i)) <= NetFlow(MonthItems(y, i))
  {
    DiscountKeepsInputAcceptable(x, y, discount);
    var delta := CombinedRateDelta(x, x.adjustments[i]);
    DiscountKeepsDeltas(x, y, discount, x.adjustments[i]);
    FailureIgnoresRate(x, 0.0, delta, |x.store.loans|);
    DiscountedDebtOrdered(x, y, discount, delta, |x.store.loans|, i);
    SameOtherItems(x, y, i);
  }

  lemma SameOtherItems(x: Input, y: Input, i: nat)
    requires Acceptable(x) && Acceptable(y) && i < |x.forecasts|
    requires y == x.(store := x.store.(currentCash := y.store.currentCash, loans := y.store.loans))
    ensures MonthItems(y, i) == MonthItems(x, i).(interest := MonthItems(y, i).interest, principal := MonthItems(y, i).principal)
  {
  }

  lemma {:induction false} CashOrdered(x: Input, y: Input, discount: real, i: nat)
    requires Acceptable(x) && Complaint(x).None? && discount >= 0.0 && PlainDiscount(x, y, discount) && i < |x.forecasts|
    ensures Acceptable(y) && PathsOrdered(Flows(x), Flows(y), i)
    decreases i
  {
    NetOrdered(x, y, discount, i);
    if i > 0 { CashOrdered(x, y, discount, i - 1); }
    FlowsUpToChain(x, |x.forecasts|);
    FlowsUpToChain(y, |y.forecasts|);
    assert Linked(x.store.currentCash, Flows(x), i) && Linked(y.store.currentCash, Flows(y), i);
  }

  /** A plain discount or grant never lowers the ending cash of any month. */
  lemma DiscountNeverLowersCash(x: Input, y: Input, discount: real)
    requires Acceptable(x) && Complaint(x).None? && discount >= 0.0 && PlainDiscount(x, y, discount)
    ensures Acceptable(y)
    ensures forall i :: 0 <= i < |x.forecasts| ==> PathsOrdered(Flows(x), Flows(y), i)
  {
    forall i | 0 <= i < |x.forecasts| ensures Acceptable(y) && PathsOrdered(Flows(x), Flows(y), i) {
      CashOrdered(x, y, discount, i);
    }
  }

  // ---------- the burn date ----------

  /** The calendar day of a burn. */
  function DayOf(burn: BurnDate): int
    requires burn.month >= 0
  {
    MonthStart(burn.month) + burn.day - 1
  }

  /** Ascending months, none before January of year 1. */
  ghost predicate DatedMonths(flows: seq<CashFlow>) {
    MonthsAscend(flows) && forall i :: 0 <= i < |flows| ==> flows[i].month >= 12
  }

  lemma LaterMonthStarts(month: nat, later: nat)
    requires 12 <= month < later
    ensures MonthEnd(month) < MonthStart(later)
  {
    MonthsAdjoin(month);
    MonthStartsAscend(month + 1, later - month - 1);
    assert (month + 1) + (later - month - 1) == later;
  }

  lemma FloorMonotone(x: real, y: real)
    requires x <= y
    ensures x.Floor <= y.Floor
  {
  }

  lemma DaysOrdered(days: int, b: real, c: real, p: real, q: real)
    requires days > 0 && 0.0 < b <= c && 0.0 < q <= p
    ensures (days as real) * b / p <= (days as real) * c / q
  {
    var d := days as real;
    MulMonotone(d, d, b, c);
    assert d * b > 0.0;
    QuotientGrows(d * b, d * c, p, q);
  }

  lemma QuotientGrows(m: real, n: real, p: real, q: real)
    requires 0.0 < m <= n && 0.0 < q <= p
    ensures m / p <= n / q
  {
    var v := n / q;
    assert v * q == n;
    if v <= 0.0 { MulNonNegative(-v, q); }
    MulMonotone(v, v, q, p);
    QuotientAtMost(m, p, v);
  }

  /** In the same month, more cash and a better flow never give an earlier burn day. */
  lemma SameMonthBurnsLater(initial: real, other: real, base: seq<CashFlow>, flows: seq<CashFlow>, b: nat)
    requires Chain(initial, base) && Chain(other, flows) && 0.0 <= initial && 0.0 <= other && |base| == |flows|
    requires b < |base| && PathsOrdered(base, flows, b) && FirstAtOrBelow(base, 0.0, b) && FirstAtOrBelow(flows, 0.0, b)
    ensures DateOfBurn(base[b]).day <= DateOfBurn(flows[b]).day
  {
    BurnOnChainedPath(initial, base, 0.0, b);
    BurnOnChainedPath(other, flows, 0.0, b);
    if base[b].beginning > 0.0 {
      assert Linked(initial, base, b) && Linked(other, flows, b);
      DaysOrdered(DaysInMonth(base[b].month), base[b].beginning, flows[b].beginning, Abs(base[b].net), Abs(flows[b].net));
      FloorMonotone(DateOfBurn(base[b]).daysToBurn, DateOfBurn(flows[b]).daysToBurn);
    }
  }

  lemma BurnComesFirst(base: seq<CashFlow>, flows: seq<CashFlow>, b: nat, c: nat)
    requires |base| == |flows| && forall i :: 0 <= i < |base| ==> PathsOrdered(base, flows, i)
    requires FirstAtOrBelow(base, 0.0, b) && FirstAtOrBelow(flows, 0.0, c)
    ensures b <= c
  {
    assert PathsOrdered(base, flows, c);
  }

  /** Where both paths burn cash, the better one does not burn it earlier. */
  lemma BetterPathBurnsLater(initial: real, other: real, base: seq<CashFlow>, flows: seq<CashFlow>, b: nat, c: nat)
    requires Chain(initial, base) && Chain(other, flows) && 0.0 <= initial && 0.0 <= other && |base| == |flows|
    requires DatedMonths(base) && forall i :: 0 <= i < |base| ==> PathsOrdered(base, flows, i)
    requires FirstAtOrBelow(base, 0.0, b) && FirstAtOrBelow(flows, 0.0, c)
    ensures b <= c
    ensures base[b].month >= 0 && flows[c].month >= 0 && DayOf(DateOfBurn(base[b])) <= DayOf(DateOfBurn(flows[c]))
  {
    BurnComesFirst(base, flows, b, c);
    assert PathsOrdered(base, flows, b) && PathsOrdered(base, flows, c);
    BurnOnChainedPath(initial, base, 0.0, b);
    BurnOnChainedPath(other, flows, 0.0, c);
    if b == c {
      SameMonthBurnsLater(initial, other, base, flows, b);
    } else {
      LaterMonthStarts(base[b].month, flows[c].month);
    }
  }

  // ---------- the reported extension ----------

  /** The difference that is reported as runway, before the floor at zero: a simulation without a burn counts up to the
      28th of the last month. */
  function RunwayDays(original: Option<int>, simulated: Option<int>, horizonEnd: int): int {
    if original.None? then 0
    else (if simulated.Some? then simulated.value else horizonEnd) - original.value
  }

  function RunwayExtension(original: Option<int>, simulated: Option<int>, horizonEnd: int): int {
    var days := RunwayDays(original, simulated, horizonEnd);
    if days < 0 then 0 else days
  }

  predicate FloorBinds(original: Option<int>, simulated: Option<int>, horizonEnd: int) {
    RunwayExtension(original, simulated, horizonEnd) != RunwayDays(original, simulated, horizonEnd)
  }

  function BurnDay(burn: CashBurn): Option<int> {
    match burn.burn
    case Some(date) => if date.month >= 0 then Some(DayOf(date)) else None
    case None => None
  }

  ghost function HorizonEnd(flows: seq<CashFlow>): int
    requires flows != [] && DatedMonths(flows)
  {
    MonthStart(flows[|flows| - 1].month) + 27
  }

  lemma BurnAt(flows: seq<CashFlow>, burn: CashBurn, minimumCash: real) returns (b: nat)
    requires BurnIs(burn, flows, minimumCash) && burn.burn.Some?
    ensures FirstAtOrBelow(flows, 0.0, b) && burn.burn.value == DateOfBurn(flows[b])
  {
    b :| FirstAtOrBelow(flows, 0.0, b) && burn.burn.value == DateOfBurn(flows[b]);
  }

  /** A burn lies after the 28th of the last month exactly when it falls into that month after its 28th day. */
  lemma BurnAfterHorizonEnd(initial: real, flows: seq<CashFlow>, b: nat)
    requires Chain(initial, flows) && initial >= 0.0 && DatedMonths(flows) && FirstAtOrBelow(flows, 0.0, b)
    ensures DayOf(DateOfBurn(flows[b])) > HorizonEnd(flows) <==> b == |flows| - 1 && DateOfBurn(flows[b]).day > 28
  {
    BurnOnChainedPath(initial, flows, 0.0, b);
    if b < |flows| - 1 { LaterMonthStarts(flows[b].month, flows[|flows| - 1].month); }
  }

  /** The same for two chained paths, the second of which is better in every month. */
  lemma FloorBindsOnPaths(initial: real, other: real, base: seq<CashFlow>, flows: seq<CashFlow>,
                          original: CashBurn, simulated: CashBurn, minimumCash: real)
    requires Chain(initial, base) && Chain(other, flows) && 0.0 <= initial && 0.0 <= other
    requires |base| == |flows| && base != [] && DatedMonths(base)
    requires forall i :: 0 <= i < |base| ==> PathsOrdered(base, flows, i)
    requires BurnIs(original, base, minimumCash) && BurnIs(simulated, flows, minimumCash)
    ensures simulated.burn.Some? ==>
      original.burn.Some? && BurnDay(original).Some? && BurnDay(simulated).Some?
      && BurnDay(original).value <= BurnDay(simulated).value
    ensures FloorBinds(BurnDay(original), BurnDay(simulated), HorizonEnd(base)) <==>
      && simulated.burn.None? && original.burn.Some?
      && original.burn.value.month == base[|base| - 1].month && original.burn.value.day > 28
  {
    if simulated.burn.Some? {
      var c := BurnAt(flows, simulated, minimumCash);
      assert PathsOrdered(base, flows, c);
      FirstExists(base, 0.0, c);
      var b := BurnAt(base, original, minimumCash);
      BetterPathBurnsLater(initial, other, base, flows, b, c);
    } else if original.burn.Some? {
      var b := BurnAt(base, original, minimumCash);
      BurnAfterHorizonEnd(initial, base, b);
    }
  }

  /** Under a plain discount or grant the runway is negative, so that its floor at zero binds, exactly when the
      original burn falls after the 28th of the last month and the simulated path has none. Where both paths burn
      cash, the simulated date is not earlier. */
  lemma RunwayFloorBindsIff(x: Input, y: Input, discount: real, original: CashBurn, simulated: CashBurn)
    requires Acceptable(x) && Complaint(x).None? && discount >= 0.0 && PlainDiscount(x, y, discount) && Acceptable(y)
    requires DatedMonths(Flows(x))
    requires BurnIs(original, Flows(x), x.store.minimumCash) && BurnIs(simulated, Flows(y), y.store.minimumCash)
    ensures simulated.burn.Some? ==>
      original.burn.Some? && BurnDay(original).Some? && BurnDay(simulated).Some?
      && BurnDay(original).value <= BurnDay(simulated).value
    ensures FloorBinds(BurnDay(original), BurnDay(simulated), HorizonEnd(Flows(x))) <==>
      && simulated.burn.None? && original.burn.Some?
      && original.burn.value.month == Flows(x)[|x.forecasts| - 1].month && original.burn.value.day > 28
  {
    DiscountNeverLowersCash(x, y, discount);
    FlowsUpToChain(x, |x.forecasts|);
    FlowsUpToChain(y, |y.forecasts|);
    FloorBindsOnPaths(x.store.currentCash, y.store.currentCash, Flows(x), Flows(y), original, simulated, x.store.minimumCash);
  }
}
