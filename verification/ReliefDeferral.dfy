/** What a repayment deferral does to the interest of a store, and when the re-simulation fails. */
module ReliefDeferral {
  import opened Wrappers
  import opened Keys
  import opened Reals
  import opened Loan
  import opened LoanConservation
  import LoanGrace
  import LoanRepayment
  import opened CashFlow
  import opened Scenario
  import opened Relief

  /** A baseline without grace, and the same input with `months` of grace for every loan. */
  ghost predicate PlainDeferral(x: Input, y: Input, months: nat) {
    && x.graceMonths == 0 && x.graceByLoan == map[]
    && y == x.(graceByLoan := Deferred(map[], x.store.loans, months))
  }

  /** The same input with every rate discounted and nothing deferred. */
  function DiscountOnly(x: Input, discount: real): Input {
    x.(store := x.store.(loans := DiscountedAll(x.store.loans, discount)))
  }

  lemma {:induction false} DeferredReadsIds(loans: seq<Loan>, discount: real, months: int)
    ensures Deferred(map[], DiscountedAll(loans, discount), months) == Deferred(map[], loans, months)
  {
    if loans != [] {
      var last := |loans| - 1;
      assert DiscountedAll(loans, discount)[..last] == DiscountedAll(loans[..last], discount);
      DeferredReadsIds(loans[..last], discount, months);
    }
  }

  /** A deferral re-simulates the input of its discount alone with more grace; without a discount, the baseline itself. */
  lemma DeferralIsPlain(x: Input, policy: Policy, requiredFunding: real)
    requires x.store.Valid() && x.graceMonths == 0 && x.graceByLoan == map[] && policy.kind.RepaymentDeferral?
    ensures var z := DiscountOnly(x, policy.discount);
      && PlainDiscount(x, z, policy.discount)
      && PlainDeferral(z, Resimulated(x, policy, requiredFunding), policy.graceMonths)
      && (policy.discount == 0.0 ==> z == x)
  {
    var loans := x.store.loans;
    assert loans + [] == loans;
    DeferredReadsIds(loans, policy.discount, policy.graceMonths);
    assert policy.discount == 0.0 ==> DiscountedAll(loans, policy.discount) == loans;
  }

  lemma {:induction false} DeferredForAll(grace: map<Key, int>, loans: seq<Loan>, months: int, i: nat)
    requires i < |loans|
    ensures loans[i].id in Deferred(grace, loans, months) && Deferred(grace, loans, months)[loans[i].id] == months
  {
    if i < |loans| - 1 { DeferredForAll(grace, loans[..|loans| - 1], months, i); }
  }

  lemma DeferralAddsGrace(x: Input, y: Input, months: nat, delta: real, n: nat)
    requires PlainDeferral(x, y, months) && x.forecasts != [] && n < |x.store.loans|
    ensures LoanGrace.MoreGrace(TermsOf(x, x.store.loans[n], delta), TermsOf(y, x.store.loans[n], delta))
  {
    DeferredForAll(map[], x.store.loans, months, n);
  }

  // ---------- failure ----------

  ghost predicate SomeRunsOut(x: Input, n: nat)
    requires x.forecasts != [] && n <= |x.store.loans|
  {
    exists i :: 0 <= i < n && LoanGrace.RunsOut(x.store.loans[i], TermsOf(x, x.store.loans[i], 0.0), |x.adjustments|)
  }

  lemma {:induction false} SchedulesFailIff(x: Input, n: nat)
    requires x.store.Valid() && x.forecasts != [] && n <= |x.store.loans|
    ensures SchedulesUpTo(x, 0.0, n).Failure? <==> SomeRunsOut(x, n)
  {
    if n > 0 {
      SchedulesFailIff(x, n - 1);
      LoanGrace.ScheduleFailsIffRunsOut(x.store.loans[n - 1], TermsOf(x, x.store.loans[n - 1], 0.0), |x.adjustments|);
    }
  }

  /** An acceptable input fails exactly when some custom loan runs out of instalments while it is still owed; so a
      deferral makes a working scenario fail exactly when the deferred instalments leave such a loan owed. */
  lemma ScenarioFailsIffRunsOut(x: Input)
    requires Acceptable(x)
    ensures Complaint(x).Some? <==> SomeRunsOut(x, |x.store.loans|)
  {
    SchedulesFailIff(x, |x.store.loans|);
  }

  /** A custom loan repaid by its only instalment: one deferred month lets the instalments run out. */
  lemma DeferralCanFail(loan: Loan, terms: Terms)
    requires loan.Valid() && loan.repaymentType.CustomSchedule? && loan.principal > 0.0 && loan.remainingMonths == 2
    requires |loan.customSchedule| == 1 && loan.customSchedule[0].principal == loan.principal
    requires loan.graceEndMonth == None && loan.nextPaymentMonth == None && terms.graceMonths == 0
    ensures Schedule(loan, terms, 2).Success? && Schedule(loan, terms.(graceMonths := 1), 2).Failure?
  {
    var deferred := terms.(graceMonths := 1);
    assert LoanGrace.UngracedInstalments(loan, terms, 1) == LoanGrace.UngracedInstalments(loan, terms, 0) + loan.principal;
    assert LoanGrace.UngracedInstalments(loan, deferred, 1) == LoanGrace.UngracedInstalments(loan, deferred, 0);
    LoanGrace.ScheduleFailsIffRunsOut(loan, terms, 2);
    LoanGrace.ScheduleFailsIffRunsOut(loan, deferred, 2);
  }

  // ---------- interest ----------

  /** Whether the deferral raises the interest of loan `n` in month `i`, at that month's own rate change. */
  ghost predicate LoanRises(x: Input, y: Input, delta: real, n: nat, i: nat)
    requires x.forecasts != [] && y.forecasts != [] && n < |x.store.loans|
  {
    LoanGrace.RaisesInterestIn(x.store.loans[n], TermsOf(x, x.store.loans[n], delta), TermsOf(y, x.store.loans[n], delta), i + 1)
  }

  ghost predicate SomeRises(x: Input, y: Input, delta: real, n: nat, i: nat)
    requires x.forecasts != [] && y.forecasts != [] && n <= |x.store.loans|
  {
    exists m :: 0 <= m < n && LoanRises(x, y, delta, m, i)
  }

  lemma ScheduleInterest(loan: Loan, terms: Terms, months: nat, i: nat)
    requires Schedule(loan, terms, months).Success? && i < months
    ensures Run(loan, terms, i + 1).Success?
    ensures Schedule(loan, terms, months).value[i].interest == LoanGrace.InterestIn(loan, terms, i + 1)
  {
    RunPrefix(loan, terms, i + 1, months);
  }

  lemma LoanInterestOrdered(x: Input, y: Input, months: nat, delta: real, n: nat, i: nat)
    requires x.store.Valid() && x.forecasts != [] && PlainDeferral(x, y, months)
    requires n < |x.store.loans| && i < |x.adjustments|
    requires Schedule(x.store.loans[n], TermsOf(x, x.store.loans[n], delta), |x.adjustments|).Success?
    requires Schedule(x.store.loans[n], TermsOf(y, x.store.loans[n], delta), |x.adjustments|).Success?
    ensures var loan := x.store.loans[n];
      var a := Schedule(loan, TermsOf(x, loan, delta), |x.adjustments|).value[i].interest;
      var b := Schedule(loan, TermsOf(y, loan, delta), |x.adjustments|).value[i].interest;
      a <= b && (a < b <==> LoanRises(x, y, delta, n, i))
  {
    var loan := x.store.loans[n];
    ScheduleInterest(loan, TermsOf(x, loan, delta), |x.adjustments|, i);
    ScheduleInterest(loan, TermsOf(y, loan, delta), |x.adjustments|, i);
    DeferralAddsGrace(x, y, months, delta, n);
    LoanGrace.GraceRaisesInterestIff(loan, TermsOf(x, loan, delta), TermsOf(y, loan, delta), i + 1);
  }

  lemma {:induction false} DeferredSchedulesOrdered(x: Input, y: Input, months: nat, delta: real, n: nat, i: nat)
    requires x.store.Valid() && x.forecasts != [] && PlainDeferral(x, y, months)
    requires n <= |x.store.loans| && i < |x.adjustments|
    requires SchedulesUpTo(x, delta, n).Success? && SchedulesUpTo(y, delta, n).Success?
    ensures var a, b := InterestDue(SchedulesUpTo(x, delta, n).value, i), InterestDue(SchedulesUpTo(y, delta, n).value, i);
      a <= b && (a < b <==> SomeRises(x, y, delta, n, i))
  {
    if n > 0 {
      DeferredSchedulesOrdered(x, y, months, delta, n - 1, i);
      LoanInterestOrdered(x, y, months, delta, n - 1, i);
      SomeRisesNext(x, y, delta, n, i);
      LastInterest(x, delta, n, i);
      LastInterest(y, delta, n, i);
    }
  }

  lemma SomeRisesNext(x: Input, y: Input, delta: real, n: nat, i: nat)
    requires x.forecasts != [] && y.forecasts != [] && 0 < n <= |x.store.loans|
    ensures SomeRises(x, y, delta, n, i) <==> SomeRises(x, y, delta, n - 1, i) || LoanRises(x, y, delta, n - 1, i)
  {
  }

  lemma LastInterest(x: Input, delta: real, n: nat, i: nat)
    requires x.forecasts != [] && 0 < n <= |x.store.loans| && i < |x.adjustments| && SchedulesUpTo(x, delta, n).Success?
    ensures var loan := x.store.loans[n - 1];
      var schedule := Schedule(loan, TermsOf(x, loan, delta), |x.adjustments|);
      && SchedulesUpTo(x, delta, n - 1).Success? && schedule.Success?
      && InterestDue(SchedulesUpTo(x, delta, n).value, i)
         == InterestDue(SchedulesUpTo(x, delta, n - 1).value, i) + schedule.value[i].interest
  {
    var before := SchedulesUpTo(x, delta, n - 1).value;
    var all := SchedulesUpTo(x, delta, n).value;
    assert all[..n - 1] == before;
  }

  /** Whether the deferral raises the interest of month `i`. */
  ghost predicate MonthRises(x: Input, y: Input, i: nat)
    requires x.forecasts != [] && y.forecasts != [] && i < |x.adjustments|
  {
    SomeRises(x, y, CombinedRateDelta(x, x.adjustments[i]), |x.store.loans|, i)
  }

  lemma MonthInterestRises(x: Input, y: Input, months: nat, i: nat)
    requires Acceptable(x) && Complaint(x).None? && PlainDeferral(x, y, months) && Complaint(y).None? && i < |x.forecasts|
    ensures Acceptable(y)
    ensures Flows(x)[i].items.interest <= Flows(y)[i].items.interest
    ensures Flows(x)[i].items.interest < Flows(y)[i].items.interest <==> MonthRises(x, y, i)
  {
    var delta := CombinedRateDelta(x, x.adjustments[i]);
    assert CombinedRateDelta(y, y.adjustments[i]) == delta;
    FailureIgnoresRate(x, 0.0, delta, |x.store.loans|);
    FailureIgnoresRate(y, 0.0, delta, |y.store.loans|);
    DeferredSchedulesOrdered(x, y, months, delta, |x.store.loans|, i);
    FlowInterest(x, i);
    FlowInterest(y, i);
  }

  lemma {:induction false} TotalRises(base: seq<CashFlow>, flows: seq<CashFlow>)
    requires |base| == |flows| && forall i :: 0 <= i < |base| ==> base[i].items.interest <= flows[i].items.interest
    ensures TotalInterest(base) <= TotalInterest(flows)
    ensures TotalInterest(base) < TotalInterest(flows) <==> exists i :: 0 <= i < |base| && base[i].items.interest < flows[i].items.interest
  {
    if base != [] {
      var m := |base| - 1;
      TotalRises(base[..m], flows[..m]);
      assert forall i :: 0 <= i < m ==> base[..m][i] == base[i] && flows[..m][i] == flows[i];
    }
  }

  /** More grace alone, if it can be re-simulated, never lowers the interest of any month, so against the same rates
      nothing is saved; it raises the total exactly when, in some month, some loan bears interest on a balance
      that a deferred payment has left open. */
  lemma DeferralRaisesInterestIff(x: Input, y: Input, months: nat)
    requires Acceptable(x) && Complaint(x).None? && PlainDeferral(x, y, months) && Complaint(y).None?
    ensures Acceptable(y)
    ensures forall i :: 0 <= i < |x.forecasts| ==> Flows(x)[i].items.interest <= Flows(y)[i].items.interest
    ensures Max(0.0, TotalInterest(Flows(x)) - TotalInterest(Flows(y))) == 0.0
    ensures TotalInterest(Flows(x)) < TotalInterest(Flows(y)) <==> exists i :: 0 <= i < |x.forecasts| && MonthRises(x, y, i)
  {
    forall i | 0 <= i < |x.forecasts|
      ensures Acceptable(y) && Flows(x)[i].items.interest <= Flows(y)[i].items.interest
      ensures Flows(x)[i].items.interest < Flows(y)[i].items.interest <==> MonthRises(x, y, i)
    {
      MonthInterestRises(x, y, months, i);
    }
    TotalRises(Flows(x), Flows(y));
  }

  ghost function Saving(x: Input, y: Input): real
    requires Acceptable(x) && Acceptable(y)
  {
    Max(0.0, TotalInterest(Flows(x)) - TotalInterest(Flows(y)))
  }

  /** The saving of a deferral, whatever discount it carries, is never more than that of its discount alone, and so zero
      without one. Its interest is more exactly when, in some month, some loan bears interest on a balance that a
      deferred payment has left open. */
  lemma DeferralSavesNoMore(x: Input, policy: Policy, requiredFunding: real)
    requires Acceptable(x) && Complaint(x).None? && x.graceMonths == 0 && x.graceByLoan == map[]
    requires policy.kind.RepaymentDeferral? && policy.Valid() && Complaint(Resimulated(x, policy, requiredFunding)).None?
    ensures var y, z := Resimulated(x, policy, requiredFunding), DiscountOnly(x, policy.discount);
      && Acceptable(y) && Acceptable(z)
      && Saving(x, y) <= Saving(x, z)
      && (policy.discount == 0.0 ==> Saving(x, y) == 0.0)
      && (TotalInterest(Flows(z)) < TotalInterest(Flows(y)) <==> exists i :: 0 <= i < |x.forecasts| && MonthRises(z, y, i))
  {
    var y, z := Resimulated(x, policy, requiredFunding), DiscountOnly(x, policy.discount);
    DeferralIsPlain(x, policy, requiredFunding);
    DiscountNeverRaisesInterest(x, z, policy.discount);
    DeferralRaisesInterestIff(z, y, policy.graceMonths);
  }

  /** One deferred month of an interest-bearing loan that repays by shares raises the interest of the next month. */
  lemma DeferralCanRaiseInterest(loan: Loan, terms: Terms)
    requires loan.Valid() && (loan.repaymentType.EqualPrincipal? || loan.repaymentType.Amortizing?)
    requires loan.principal > 0.0 && loan.remainingMonths >= 2 && loan.graceEndMonth == None && loan.nextPaymentMonth == None
    requires terms.graceMonths == 0 && AppliedRate(loan, terms, 2) > 0.0
    ensures LoanGrace.InterestIn(loan, terms, 2) < LoanGrace.InterestIn(loan, terms.(graceMonths := 1), 2)
  {
    var deferred := terms.(graceMonths := 1);
    assert LoanGrace.Deferred(loan, terms, deferred, 1);
    LoanRepayment.RunSucceeds(loan, deferred, 2);
    LoanGrace.GraceRaisesInterestIff(loan, terms, deferred, 2);
  }
}
