/** Re-simulation of a store under a relief policy and the interest it saves (backend/src/relief/pipeline.py). */
module Relief {
  import opened Wrappers
  import opened Keys
  import opened Reals
  import opened Loan
  import opened LoanMonotone
  import opened CashFlow
  import opened Scenario

  datatype PolicyKind = LoanSupport | Grant | RepaymentDeferral | OtherKind

  /** The terms of an eligible policy; a repayment method outside the three supported ones is `None`. */
  datatype Policy = Policy(
    kind: PolicyKind,
    loanId: Key,
    limit: real,
    discount: real,
    graceMonths: nat,
    annualRatePercent: Option<real>,
    maturityMonths: Option<nat>,
    repayment: Option<RepaymentType>)
  {
    ghost predicate Valid() {
      && limit >= 0.0
      && discount >= 0.0
      && (annualRatePercent.Some? ==> annualRatePercent.value >= 0.0)
      && (repayment.Some? ==> !repayment.value.CustomSchedule?)
    }
  }

  function FundingAmount(policy: Policy, requiredFunding: real): real {
    Min(policy.limit, requiredFunding)
  }

  /** Whether the policy's own loan is explicit enough to be drawn. */
  predicate DrawsLoan(policy: Policy, requiredFunding: real) {
    && policy.kind.LoanSupport? && FundingAmount(policy, requiredFunding) > 0.0
    && policy.annualRatePercent.Some?
    && policy.maturityMonths.Some? && policy.maturityMonths.value > 0
    && policy.repayment.Some?
  }

  function PolicyLoan(policy: Policy, requiredFunding: real): Loan
    requires DrawsLoan(policy, requiredFunding)
  {
    Loan(policy.loanId, FundingAmount(policy, requiredFunding), policy.annualRatePercent.value / 100.0, Fixed,
         policy.repayment.value, policy.maturityMonths.value, None, None, None, [])
  }

  function Discounted(loan: Loan, discount: real): Loan {
    loan.(annualRate := Max(0.0, loan.annualRate - discount))
  }

  function DiscountedAll(loans: seq<Loan>, discount: real): (r: seq<Loan>)
    ensures |r| == |loans|
    ensures forall i :: 0 <= i < |loans| ==> r[i] == Discounted(loans[i], discount)
  {
    seq(|loans|, i requires 0 <= i < |loans| => Discounted(loans[i], discount))
  }

  function Deferred(grace: map<Key, int>, loans: seq<Loan>, months: int): map<Key, int> {
    if loans == [] then grace
    else Deferred(grace, loans[..|loans| - 1], months)[loans[|loans| - 1].id := months]
  }

  /** The copied store profile that a policy modifies in place. */
  class ModifiedStore {
    const original: Store
    var currentCash: real
    var loans: seq<Loan>

    constructor (store: Store)
      ensures original == store && Profile() == store
    {
      original := store;
      currentCash := store.currentCash;
      loans := store.loans;
    }

    function Profile(): Store
      reads this
    {
      original.(currentCash := currentCash, loans := loans)
    }

    /** A grant adds cash; a fully specified loan adds cash and a loan with its own grace; a deferral gives every loan
        the policy's grace; anything else changes nothing. */
    method ApplyFundingTerms(policy: Policy, requiredFunding: real) returns (graceByLoan: map<Key, int>)
      modifies this
      ensures currentCash == old(currentCash)
        + if (policy.kind.Grant? && FundingAmount(policy, requiredFunding) > 0.0) || DrawsLoan(policy, requiredFunding)
          then FundingAmount(policy, requiredFunding) else 0.0
      ensures loans == old(loans)
        + if DrawsLoan(policy, requiredFunding) then [PolicyLoan(policy, requiredFunding)] else []
      ensures graceByLoan ==
        if DrawsLoan(policy, requiredFunding) then map[policy.loanId := policy.graceMonths as int]
        else if policy.kind.RepaymentDeferral? then Deferred(map[], loans, policy.graceMonths)
        else map[]
    {
      graceByLoan := map[];
      var funding := FundingAmount(policy, requiredFunding);
      if policy.kind.Grant? && funding > 0.0 {
        currentCash := currentCash + funding;
      } else if policy.kind.LoanSupport? && funding > 0.0 {
        if DrawsLoan(policy, requiredFunding) {
          currentCash := currentCash + funding;
          loans := loans + [PolicyLoan(policy, requiredFunding)];
          graceByLoan := graceByLoan[policy.loanId := policy.graceMonths];
        }
      }
      if policy.kind.RepaymentDeferral? {
        ghost var none := graceByLoan;
        for k := 0 to |loans|
          invariant graceByLoan == Deferred(none, loans[..k], policy.graceMonths)
          invariant loans == old(loans) && currentCash == old(currentCash)
        {
          assert loans[..k + 1][..k] == loans[..k];
          graceByLoan := graceByLoan[loans[k].id := policy.graceMonths];
        }
        assert loans[..|loans|] == loans;
      }
    }

    method DiscountRates(discount: real)
      modifies this
      ensures currentCash == old(currentCash)
      ensures loans == DiscountedAll(old(loans), discount)
    {
      for k := 0 to |loans|
        invariant |loans| == |old(loans)| && currentCash == old(currentCash)
        invariant forall i :: 0 <= i < k ==> loans[i] == Discounted(old(loans)[i], discount)
        invariant forall i :: k <= i < |loans| ==> loans[i] == old(loans)[i]
      {
        loans := loans[k := Discounted(loans[k], discount)];
      }
    }
  }

  function TotalInterest(flows: seq<CashFlow>): real {
    if flows == [] then 0.0 else TotalInterest(flows[..|flows| - 1]) + flows[|flows| - 1].items.interest
  }

  /** The re-simulated input of a policy that neither draws a loan nor defers one. */
  ghost predicate PlainDiscount(x: Input, y: Input, discount: real) {
    && y == x.(store := x.store.(currentCash := y.store.currentCash, loans := DiscountedAll(x.store.loans, discount)))
    && y.store.currentCash >= x.store.currentCash
  }

  /** The input of the re-simulation under a policy. */
  function Resimulated(x: Input, policy: Policy, requiredFunding: real): Input {
    var draws := DrawsLoan(policy, requiredFunding);
    var funding := FundingAmount(policy, requiredFunding);
    x.(
      store := x.store.(
        currentCash := x.store.currentCash + if (policy.kind.Grant? && funding > 0.0) || draws then funding else 0.0,
        loans := DiscountedAll(x.store.loans + if draws then [PolicyLoan(policy, requiredFunding)] else [], policy.discount)),
      graceByLoan :=
        if draws then map[policy.loanId := policy.graceMonths as int]
        else if policy.kind.RepaymentDeferral? then Deferred(map[], x.store.loans, policy.graceMonths)
        else map[])
  }

  /** A policy that neither draws a loan nor defers one changes only the rates, and adds cash at most. */
  lemma PlainPolicy(x: Input, policy: Policy, requiredFunding: real)
    requires x.graceByLoan == map[] && !DrawsLoan(policy, requiredFunding) && !policy.kind.RepaymentDeferral?
    ensures PlainDiscount(x, Resimulated(x, policy, requiredFunding), policy.discount)
  {
    assert x.store.loans + [] == x.store.loans;
  }

  lemma ResimulatedIsValid(x: Input, policy: Policy, requiredFunding: real)
    requires x.store.Valid() && policy.Valid()
    ensures Resimulated(x, policy, requiredFunding).store.Valid()
  {
    var y := Resimulated(x, policy, requiredFunding);
    var loans := x.store.loans + if DrawsLoan(policy, requiredFunding) then [PolicyLoan(policy, requiredFunding)] else [];
    forall i | 0 <= i < |y.store.loans| ensures y.store.loans[i].Valid() {
      assert y.store.loans[i] == Discounted(loans[i], policy.discount);
    }
  }

  /** The store is copied, given the policy's funding and terms, and then its rates are discounted. */
  method ApplyPolicy(x: Input, policy: Policy, requiredFunding: real) returns (y: Input)
    ensures y == Resimulated(x, policy, requiredFunding)
  {
    var modified := new ModifiedStore(x.store);
    var grace := modified.ApplyFundingTerms(policy, requiredFunding);
    assert x.store.loans + [] == x.store.loans;
    modified.DiscountRates(policy.discount);
    y := x.(store := modified.Profile(), graceByLoan := grace);
  }

  /** A baseline run without grace and its re-simulation under one policy, with the reported interest saving. */
  method SimulateSavings(x: Input, policy: Policy, requiredFunding: real, baseline: seq<CashFlow>)
    returns (y: Input, simulated: Result<Output, Error>, savings: real)
    requires Acceptable(x) && policy.Valid() && x.graceMonths == 0 && x.graceByLoan == map[]
    requires baseline == Flows(x)
    ensures y == Resimulated(x, policy, requiredFunding)
    ensures simulated.Success? ==> Acceptable(y) && simulated.value.flows == Flows(y)
    ensures simulated.Success? ==> savings == Max(0.0, TotalInterest(Flows(x)) - TotalInterest(Flows(y)))
    ensures simulated.Failure? ==> savings == 0.0 && Complaint(y).Some?
  {
    y := ApplyPolicy(x, policy, requiredFunding);
    ResimulatedIsValid(x, policy, requiredFunding);
    simulated := RunMonthlyFinancialScenario(y);
    savings := 0.0;
    if simulated.Success? {
      var original := InterestTotal(baseline);
      var reduced := InterestTotal(simulated.value.flows);
      savings := Max(0.0, original - reduced);
    }
  }

  method InterestTotal(flows: seq<CashFlow>) returns (total: real)
    ensures total == TotalInterest(flows)
  {
    total := 0.0;
    for k := 0 to |flows|
      invariant total == TotalInterest(flows[..k])
    {
      assert flows[..k + 1][..k] == flows[..k];
      total := total + flows[k].items.interest;
    }
    assert flows[..|flows|] == flows;
  }

  lemma DiscountedScheduleOrdered(loan: Loan, discount: real, terms: Terms, months: nat)
    requires loan.Valid() && discount >= 0.0 && Schedule(loan, terms, months).Success?
    ensures var cheap := Schedule(Discounted(loan, discount), terms, months);
      cheap.Success? && forall k :: 0 <= k < months ==> cheap.value[k].interest <= Schedule(loan, terms, months).value[k].interest
  {
    RaisingRateRaisesSchedule(Discounted(loan, discount), terms, loan, terms, months);
  }

  lemma {:induction false} DiscountedSchedulesOrdered(x: Input, y: Input, discount: real, delta: real, n: nat, i: nat)
    requires Acceptable(x) && discount >= 0.0 && PlainDiscount(x, y, discount)
    requires n <= |x.store.loans| && i < |x.forecasts| && SchedulesUpTo(x, delta, n).Success?
    ensures SchedulesUpTo(y, delta, n).Success?
    ensures InterestDue(SchedulesUpTo(y, delta, n).value, i) <= InterestDue(SchedulesUpTo(x, delta, n).value, i)
  {
    if n > 0 {
      DiscountedSchedulesOrdered(x, y, discount, delta, n - 1, i);
      var loan := x.store.loans[n - 1];
      DiscountedScheduleOrdered(loan, discount, TermsOf(x, loan, delta), |x.adjustments|);
      assert TermsOf(y, y.store.loans[n - 1], delta) == TermsOf(x, loan, delta);
    }
  }

  lemma DiscountKeepsDeltas(x: Input, y: Input, discount: real, adjustment: Adjustment)
    requires PlainDiscount(x, y, discount)
    ensures CombinedRateDelta(y, adjustment) == CombinedRateDelta(x, adjustment)
  {
    if i :| 0 <= i < |x.store.loans| && x.store.loans[i].rateType.Variable? {
      assert y.store.loans[i].rateType.Variable?;
    }
    if i :| 0 <= i < |y.store.loans| && y.store.loans[i].rateType.Variable? {
      assert x.store.loans[i].rateType.Variable?;
    }
  }

  lemma MonthInterestIs(x: Input, i: nat, schedules: seq<seq<Payment>>)
    requires Acceptable(x) && i < |x.forecasts| && Schedules(x, CombinedRateDelta(x, x.adjustments[i])) == Success(schedules)
    ensures MonthItems(x, i).interest == InterestDue(schedules, i)
  {
  }

  lemma MonthInterestOrdered(x: Input, y: Input, discount: real, i: nat)
    requires Acceptable(x) && Complaint(x).None? && discount >= 0.0 && PlainDiscount(x, y, discount)
    requires Acceptable(y) && i < |x.forecasts|
    ensures MonthItems(y, i).interest <= MonthItems(x, i).interest
  {
    var delta := CombinedRateDelta(x, x.adjustments[i]);
    DiscountKeepsDeltas(x, y, discount, x.adjustments[i]);
    FailureIgnoresRate(x, 0.0, delta, |x.store.loans|);
    DiscountedSchedulesOrdered(x, y, discount, delta, |x.store.loans|, i);
    MonthInterestIs(x, i, Schedules(x, delta).value);
    MonthInterestIs(y, i, Schedules(y, delta).value);
  }

  lemma {:induction false} TotalInterestOrdered(base: seq<CashFlow>, flows: seq<CashFlow>)
    requires |base| == |flows| && forall i :: 0 <= i < |base| ==> flows[i].items.interest <= base[i].items.interest
    ensures TotalInterest(flows) <= TotalInterest(base)
  {
    if base != [] { TotalInterestOrdered(base[..|base| - 1], flows[..|flows| - 1]); }
  }

  lemma DiscountKeepsInputAcceptable(x: Input, y: Input, discount: real)
    requires Acceptable(x) && Complaint(x).None? && discount >= 0.0 && PlainDiscount(x, y, discount)
    ensures Acceptable(y) && Complaint(y).None?
  {
    DiscountedSchedulesOrdered(x, y, discount, 0.0, |x.store.loans|, 0);
    DiscountedStoreIsValid(x, y, discount);
  }

  lemma DiscountedStoreIsValid(x: Input, y: Input, discount: real)
    requires x.store.Valid() && PlainDiscount(x, y, discount)
    ensures y.store.Valid()
  {
    forall i | 0 <= i < |y.store.loans| ensures y.store.loans[i].Valid() {
      assert y.store.loans[i] == Discounted(x.store.loans[i], discount);
    }
  }

  lemma FlowInterest(x: Input, i: nat)
    requires Acceptable(x) && i < |x.forecasts|
    ensures Flows(x)[i].items == MonthItems(x, i)
  {
    FlowsUpToChain(x, |x.forecasts|);
  }

  lemma FlowInterestOrdered(x: Input, y: Input, discount: real, i: nat)
    requires Acceptable(x) && Complaint(x).None? && discount >= 0.0 && PlainDiscount(x, y, discount)
    requires Acceptable(y) && i < |x.forecasts|
    ensures Flows(y)[i].items.interest <= Flows(x)[i].items.interest
  {
    FlowInterest(x, i);
    FlowInterest(y, i);
    MonthInterestOrdered(x, y, discount, i);
  }

  /** A policy that only discounts the rate can be re-simulated whenever the baseline can, never raises the interest
      of any month, and so the floor at zero of the reported saving never binds. */
  lemma DiscountNeverRaisesInterest(x: Input, y: Input, discount: real)
    requires Acceptable(x) && Complaint(x).None? && discount >= 0.0 && PlainDiscount(x, y, discount)
    ensures Acceptable(y) && Complaint(y).None?
    ensures forall i :: 0 <= i < |x.forecasts| ==> Flows(y)[i].items.interest <= Flows(x)[i].items.interest
    ensures Max(0.0, TotalInterest(Flows(x)) - TotalInterest(Flows(y))) == TotalInterest(Flows(x)) - TotalInterest(Flows(y))
  {
    DiscountKeepsInputAcceptable(x, y, discount);
    forall i | 0 <= i < |x.forecasts| ensures Flows(y)[i].items.interest <= Flows(x)[i].items.interest {
      FlowInterestOrdered(x, y, discount, i);
    }
    TotalInterestOrdered(Flows(x), Flows(y));
  }
}
