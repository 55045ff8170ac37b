/** What a relief policy makes of a store before it is simulated again: its cash, each of its loans, and their grace. */
module ReliefTerms {
  import opened Wrappers
  import opened Keys
  import opened Loan
  import opened Scenario
  import opened Relief

  /** The policy pays what is required, within its limit. */
  predicate Pays(policy: Policy, required: real, amount: real) {
    amount == if required <= policy.limit then required else policy.limit
  }

  /** A loan policy that states rate, term and repayment, and pays something. */
  predicate LendsAs(policy: Policy, amount: real, loan: Loan) {
    && policy.kind == LoanSupport && amount > 0.0
    && policy.annualRatePercent.Some? && policy.repayment.Some? && policy.maturityMonths.Some? && policy.maturityMonths.value > 0
    && loan.id == policy.loanId && loan.principal == amount && loan.annualRate * 100.0 == policy.annualRatePercent.value
    && loan.rateType == Fixed && loan.repaymentType == policy.repayment.value && loan.remainingMonths == policy.maturityMonths.value
    && loan.renewalMonth.None? && loan.nextPaymentMonth.None? && loan.graceEndMonth.None? && loan.customSchedule == []
  }

  /** The same loan at a rate lower by the discount, not below zero. */
  predicate CheaperBy(loan: Loan, discount: real, cheaper: Loan) {
    && cheaper == loan.(annualRate := cheaper.annualRate)
    && cheaper.annualRate == if loan.annualRate < discount then 0.0 else loan.annualRate - discount
  }

  lemma PolicyLends(policy: Policy, required: real, amount: real)
    requires Pays(policy, required, amount)
    ensures FundingAmount(policy, required) == amount
    ensures DrawsLoan(policy, required) <==> exists loan :: LendsAs(policy, amount, loan)
    ensures DrawsLoan(policy, required) ==> LendsAs(policy, amount, PolicyLoan(policy, required))
  {
    if DrawsLoan(policy, required) {
      var rate := policy.annualRatePercent.value / 100.0;
      assert rate * 100.0 == policy.annualRatePercent.value;
      assert LendsAs(policy, amount, PolicyLoan(policy, required));
    }
  }

  /** A grant or a loan adds what it pays to the cash; nothing else of the store but its loans changes. */
  lemma CashUnderPolicy(x: Input, policy: Policy, required: real, amount: real)
    requires Pays(policy, required, amount)
    ensures var y := Resimulated(x, policy, required);
      && y == x.(store := y.store, graceByLoan := y.graceByLoan)
      && y.store == x.store.(currentCash := y.store.currentCash, loans := y.store.loans)
      && y.store.currentCash == x.store.currentCash
           + if amount > 0.0 && (policy.kind == Grant || exists loan :: LendsAs(policy, amount, loan)) then amount else 0.0
  {
    PolicyLends(policy, required, amount);
  }

  /** Every loan gets cheaper by the discount, the loan of the policy, which comes last, like the others. */
  lemma LoansUnderPolicy(x: Input, policy: Policy, required: real, amount: real) returns (all: seq<Loan>)
    requires Pays(policy, required, amount)
    ensures x.store.loans <= all && |all| <= |x.store.loans| + 1
    ensures |all| == |x.store.loans| + 1 <==> exists loan :: LendsAs(policy, amount, loan)
    ensures |all| == |x.store.loans| + 1 ==> LendsAs(policy, amount, all[|x.store.loans|])
    ensures |Resimulated(x, policy, required).store.loans| == |all|
    ensures forall i :: 0 <= i < |all| ==> CheaperBy(all[i], policy.discount, Resimulated(x, policy, required).store.loans[i])
  {
    PolicyLends(policy, required, amount);
    all := x.store.loans + if DrawsLoan(policy, required) then [PolicyLoan(policy, required)] else [];
  }

  lemma {:induction false} DeferredIs(grace: map<Key, int>, loans: seq<Loan>, months: int, id: Key)
    ensures id in Deferred(grace, loans, months) <==> id in grace || exists loan :: loan in loans && loan.id == id
    ensures (exists loan :: loan in loans && loan.id == id) ==> Deferred(grace, loans, months)[id] == months
  {
    if loans != [] {
      var init, last := loans[..|loans| - 1], loans[|loans| - 1];
      assert loans == init + [last];
      DeferredIs(grace, init, months, id);
    }
  }

  /** A deferral gives the policy's grace to every loan of the store, a loan policy to its own loan; all others keep the common
      grace of the run. */
  lemma GraceUnderPolicy(x: Input, policy: Policy, required: real, amount: real, loan: Loan)
    requires Pays(policy, required, amount)
    ensures GraceOf(Resimulated(x, policy, required), loan) ==
      if exists drawn :: LendsAs(policy, amount, drawn) then (if loan.id == policy.loanId then policy.graceMonths else x.graceMonths)
      else if policy.kind == RepaymentDeferral && exists own :: own in x.store.loans && own.id == loan.id then policy.graceMonths
      else x.graceMonths
  {
    PolicyLends(policy, required, amount);
    DeferredIs(map[], x.store.loans, policy.graceMonths, loan.id);
  }
}
