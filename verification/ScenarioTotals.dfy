/** The principal paid by a whole scenario, loan by loan. */
module ScenarioTotals {
  import opened Wrappers
  import opened Loan
  import LoanRepayment
  import opened Scenario
  import opened ScenarioPrincipal

  /** A scenario that the calculation accepts and whose loans can all be scheduled. */
  ghost predicate Computable(x: Input) {
    Acceptable(x) && Complaint(x).None?
  }

  function Deltas(x: Input): (deltas: seq<real>)
    ensures |deltas| == |x.adjustments|
  {
    seq(|x.adjustments|, i requires 0 <= i < |x.adjustments| => CombinedRateDelta(x, x.adjustments[i]))
  }

  lemma AllSchedulesExist(x: Input, delta: real)
    requires Computable(x)
    ensures Schedules(x, delta).Success?
  {
    FailureIgnoresRate(x, 0.0, delta, |x.store.loans|);
  }

  lemma {:induction false} SchedulesAre(x: Input, delta: real, k: nat, m: nat)
    requires x.forecasts != [] && k <= |x.store.loans| && SchedulesUpTo(x, delta, k).Success? && m < k
    ensures var loan := x.store.loans[m];
      var schedule := Schedule(loan, TermsOf(x, loan, delta), |x.adjustments|);
      schedule.Success? && SchedulesUpTo(x, delta, k).value[m] == schedule.value
    ensures SchedulesUpTo(x, delta, m).Success? && SchedulesUpTo(x, delta, m).value == SchedulesUpTo(x, delta, k).value[..m]
  {
    if m < k - 1 {
      SchedulesAre(x, delta, k - 1, m);
    }
  }

  /** Principal collected from the first `n` loans in the first `k` months. */
  function LoanTotal(x: Input, n: nat, k: nat): real
    requires x.forecasts != [] && n <= |x.store.loans| && k <= |x.adjustments|
  {
    if n == 0 then 0.0
    else
      var loan := x.store.loans[n - 1];
      LoanTotal(x, n - 1, k) + Collected(loan, TermsOf(x, loan, 0.0), Deltas(x), k)
  }

  ghost function MonthTotal(x: Input, k: nat): real
    requires Acceptable(x) && k <= |x.forecasts|
  {
    if k == 0 then 0.0 else MonthTotal(x, k - 1) + Flows(x)[k - 1].items.principal
  }

  lemma {:induction false} LoanTotalStart(x: Input, n: nat)
    requires x.forecasts != [] && n <= |x.store.loans|
    ensures LoanTotal(x, n, 0) == 0.0
  {
    if n > 0 { LoanTotalStart(x, n - 1); }
  }

  lemma {:induction false} LoanTotalStep(x: Input, n: nat, k: nat)
    requires Computable(x) && n <= |x.store.loans| && 0 < k <= |x.adjustments|
    requires SchedulesUpTo(x, Deltas(x)[k - 1], n).Success?
    ensures LoanTotal(x, n, k) == LoanTotal(x, n, k - 1) + PrincipalDue(SchedulesUpTo(x, Deltas(x)[k - 1], n).value, k - 1)
  {
    if n > 0 {
      var delta := Deltas(x)[k - 1];
      SchedulesAre(x, delta, n, n - 1);
      LoanTotalStep(x, n - 1, k);
    }
  }

  lemma {:induction false} MonthTotalIsLoanTotal(x: Input, k: nat)
    requires Computable(x) && k <= |x.forecasts|
    ensures MonthTotal(x, k) == LoanTotal(x, |x.store.loans|, k)
  {
    if k == 0 {
      LoanTotalStart(x, |x.store.loans|);
    } else {
      MonthTotalIsLoanTotal(x, k - 1);
      AllSchedulesExist(x, Deltas(x)[k - 1]);
      LoanTotalStep(x, |x.store.loans|, k);
      FlowsUpToChain(x, |x.forecasts|);
    }
  }

  function Outstanding(x: Input, n: nat): real
    requires x.forecasts != [] && x.adjustments != [] && n <= |x.store.loans|
  {
    if n == 0 then 0.0
    else
      var loan := x.store.loans[n - 1];
      Outstanding(x, n - 1)
        + BalanceAt(loan, TermsOf(x, loan, 0.0), |x.adjustments|, Deltas(x)[|x.adjustments| - 1], |x.adjustments|)
  }

  function Borrowed(loans: seq<Loan>, n: nat): real
    requires n <= |loans|
  {
    if n == 0 then 0.0 else Borrowed(loans, n - 1) + loans[n - 1].principal
  }

  lemma {:induction false} LoansConserve(x: Input, n: nat)
    requires Computable(x) && n <= |x.store.loans|
    requires forall i :: 0 <= i < |x.store.loans| ==> PrincipalIgnoresRate(x.store.loans[i])
    ensures LoanTotal(x, n, |x.adjustments|) + Outstanding(x, n) == Borrowed(x.store.loans, n)
  {
    if n > 0 {
      LoansConserve(x, n - 1);
      var loan := x.store.loans[n - 1];
      AllSchedulesExist(x, 0.0);
      SchedulesAre(x, 0.0, |x.store.loans|, n - 1);
      SwitchingSchedulesConserves(loan, TermsOf(x, loan, 0.0), Deltas(x), |x.adjustments|);
    }
  }

  /** Over a whole scenario, with a rate schedule chosen afresh every month, the principal outflows and the balances
      left open add up to the debt of the store, unless one of its loans is an annuity with a variable rate. */
  lemma ScenarioConservesDebt(x: Input)
    requires Computable(x)
    requires forall i :: 0 <= i < |x.store.loans| ==> PrincipalIgnoresRate(x.store.loans[i])
    ensures MonthTotal(x, |x.forecasts|) + Outstanding(x, |x.store.loans|) == Borrowed(x.store.loans, |x.store.loans|)
  {
    MonthTotalIsLoanTotal(x, |x.forecasts|);
    LoansConserve(x, |x.store.loans|);
  }

  ghost predicate NeverFalls(deltas: seq<real>) {
    forall i, j :: 0 <= i < j < |deltas| ==> deltas[i] <= deltas[j]
  }

  /** Some month's rate change meets an open annuity that has paid at different rates before. */
  ghost predicate LoanShows(x: Input, n: nat)
    requires x.forecasts != [] && n < |x.store.loans|
  {
    var loan, deltas := x.store.loans[n], Deltas(x);
    exists j :: 0 < j < |deltas| && SwitchShows(loan, TermsOf(x, loan, 0.0), deltas[j - 1], deltas[j], j)
  }

  ghost predicate SomeLoanShows(x: Input, n: nat)
    requires x.forecasts != [] && n <= |x.store.loans|
  {
    exists m :: 0 <= m < n && LoanShows(x, m)
  }

  lemma LoanOvercollects(x: Input, n: nat)
    requires Computable(x) && n < |x.store.loans| && NeverFalls(Deltas(x))
    ensures var loan, months := x.store.loans[n], |x.adjustments|;
      var total := Collected(loan, TermsOf(x, loan, 0.0), Deltas(x), months)
        + BalanceAt(loan, TermsOf(x, loan, 0.0), months, Deltas(x)[months - 1], months);
      total >= loan.principal && (total == loan.principal <==> !LoanShows(x, n))
  {
    var loan := x.store.loans[n];
    AllSchedulesExist(x, 0.0);
    SchedulesAre(x, 0.0, |x.store.loans|, n);
    SwitchingSchedulesConserves(loan, TermsOf(x, loan, 0.0), Deltas(x), |x.adjustments|);
    ConservedIffNoSwitchShows(loan, TermsOf(x, loan, 0.0), Deltas(x), |x.adjustments|);
  }

  lemma SomeLoanShowsNext(x: Input, n: nat)
    requires x.forecasts != [] && 0 < n <= |x.store.loans|
    ensures SomeLoanShows(x, n) <==> SomeLoanShows(x, n - 1) || LoanShows(x, n - 1)
  {
  }

  lemma {:induction false} LoansOvercollect(x: Input, n: nat)
    requires Computable(x) && n <= |x.store.loans| && NeverFalls(Deltas(x))
    ensures var total := LoanTotal(x, n, |x.adjustments|) + Outstanding(x, n);
      total >= Borrowed(x.store.loans, n) && (total == Borrowed(x.store.loans, n) <==> !SomeLoanShows(x, n))
  {
    if n > 0 {
      LoansOvercollect(x, n - 1);
      LoanOvercollects(x, n - 1);
      SomeLoanShowsNext(x, n);
    }
  }

  /** With rate changes that never fall, a scenario collects and leaves open at least the debt of the store, and exactly
      that debt if and only if no month's rate change meets an open annuity that has paid at different rates before. */
  lemma ScenarioConservesDebtIff(x: Input)
    requires Computable(x) && NeverFalls(Deltas(x))
    ensures var total, debt := MonthTotal(x, |x.forecasts|) + Outstanding(x, |x.store.loans|), Borrowed(x.store.loans, |x.store.loans|);
      total >= debt && (total == debt <==> !SomeLoanShows(x, |x.store.loans|))
  {
    MonthTotalIsLoanTotal(x, |x.forecasts|);
    LoansOvercollect(x, |x.store.loans|);
  }

  /** A store with one variable annuity over a year, and two months of which the second has a higher rate. */
  function RisingRate(rise: real): Input {
    var loan := Loan(0, 1200.0, 0.04, Variable, Amortizing, 12, None, None, None, []);
    var history := History(24000, 0.0, 0.0, 0.0, 0.0, map[Rent := 0.0, Labor := 0.0, Utilities := 0.0, Category.Other := 0.0], 0.0, 0.0);
    Input(
      Store(5000.0, 0.0, [history], [], [loan], 0.0, 1.0),
      [Forecast(24001, 0.0), Forecast(24002, 0.0)],
      [Adjustment(24001, 1.0, 1.0, 1.0, 0.0), Adjustment(24002, 1.0, 1.0, 1.0, rise)],
      0, map[], None)
  }

  lemma RisingRateComputes(rise: real)
    ensures Computable(RisingRate(rise)) && Deltas(RisingRate(rise)) == [0.0, rise]
  {
    var x := RisingRate(rise);
    var loan := x.store.loans[0];
    assert loan.Valid();
    LoanRepayment.RunSucceeds(loan, TermsOf(x, loan, 0.0), 2);
    assert SchedulesUpTo(x, 0.0, 0).Success?;
    assert SchedulesUpTo(x, 0.0, 1).Success?;
    assert loan.rateType.Variable?;
    assert HasVariableDebt(x.store);
  }

  /** However small the rise, such a store pays back more than it owes. */
  lemma RisingRateOvercollects(rise: real)
    requires rise > 0.0
    ensures Computable(RisingRate(rise))
    ensures MonthTotal(RisingRate(rise), 2) + Outstanding(RisingRate(rise), 1) > 1200.0 == Borrowed(RisingRate(rise).store.loans, 1)
  {
    var x := RisingRate(rise);
    var loan := x.store.loans[0];
    RisingRateComputes(rise);
    ScenarioConservesDebtIff(x);
    assert RatesDiffer(loan, TermsOf(x, loan, 0.0), 0.0, rise, 1);
    assert SwitchShows(loan, TermsOf(x, loan, 0.0), Deltas(x)[0], Deltas(x)[1], 1);
    assert LoanShows(x, 0);
    assert Borrowed(x.store.loans, 0) == 0.0;
  }
}
