/** In which month a rate change begins, and which months of a schedule it can touch. */
module LoanRates {
  import opened Wrappers
  import opened Loan
  import opened LoanConservation
  import opened LoanMonths

  /** The first month in which a variable loan has its changed rate. */
  function ChangeMonth(loan: Loan): int { match loan.renewalMonth case Some(month) => month case None => 1 }

  /** Every month carries the declared rate, and from the change on that of a variable loan is moved by the change,
      floored at zero. */
  lemma RateOfMonth(loan: Loan, terms: Terms, months: nat, k: nat)
    requires loan.Valid() && Schedule(loan, terms, months).Success? && k < months
    ensures var rate, moved := Schedule(loan, terms, months).value[k].appliedRate, loan.annualRate + terms.rateDelta;
      && (loan.rateType == Fixed || k + 1 < ChangeMonth(loan) ==> rate == loan.annualRate)
      && (loan.rateType == Variable && k + 1 >= ChangeMonth(loan) ==> rate == if moved < 0.0 then 0.0 else moved)
  {
    var x := MonthOfSchedule(loan, terms, months, k);
  }

  lemma {:induction false} SameRatesSameRun(loan: Loan, terms: Terms, other: Terms, months: nat)
    requires other == terms.(rateDelta := other.rateDelta)
    requires forall m :: 1 <= m <= months ==> AppliedRate(loan, terms, m) == AppliedRate(loan, other, m)
    ensures Run(loan, terms, months) == Run(loan, other, months)
  {
    if months > 0 {
      SameRatesSameRun(loan, terms, other, months - 1);
      assert AppliedRate(loan, terms, months) == AppliedRate(loan, other, months);
      if Run(loan, terms, months - 1).Success? {
        SameRateSameMonth(loan, terms, other, Run(loan, terms, months - 1).value);
      }
    }
  }

  lemma SameRateSameMonth(loan: Loan, terms: Terms, other: Terms, p: Progress)
    requires other == terms.(rateDelta := other.rateDelta)
    requires AppliedRate(loan, terms, |p.payments| + 1) == AppliedRate(loan, other, |p.payments| + 1)
    ensures Advance(loan, terms, p) == Advance(loan, other, p)
  {
  }

  /** Before the change, and ever for a fixed loan, two rate changes give the same run. */
  lemma UntouchedRun(loan: Loan, terms: Terms, other: Terms, months: nat)
    requires loan.Valid() && other == terms.(rateDelta := other.rateDelta)
    requires loan.rateType == Fixed || months < ChangeMonth(loan)
    ensures Run(loan, terms, months) == Run(loan, other, months)
  {
    forall m | 1 <= m <= months ensures AppliedRate(loan, terms, m) == AppliedRate(loan, other, m) {
      RateIs(loan, terms, m);
      RateIs(loan, other, m);
    }
    SameRatesSameRun(loan, terms, other, months);
  }

  /** Before its change month a variable loan is scheduled as at no rate change, and a fixed loan always is. */
  lemma UntouchedBeforeChange(loan: Loan, terms: Terms, months: nat, k: nat)
    requires loan.Valid() && Schedule(loan, terms, months).Success? && k < months
    requires Schedule(loan, terms.(rateDelta := 0.0), months).Success?
    requires loan.rateType == Fixed || k + 1 < ChangeMonth(loan)
    ensures Schedule(loan, terms, months).value[k] == Schedule(loan, terms.(rateDelta := 0.0), months).value[k]
  {
    UntouchedPayment(loan, terms, terms.(rateDelta := 0.0), months, k);
  }

  lemma UntouchedPayment(loan: Loan, terms: Terms, other: Terms, months: nat, k: nat)
    requires loan.Valid() && other == terms.(rateDelta := other.rateDelta) && k < months
    requires Schedule(loan, terms, months).Success? && Schedule(loan, other, months).Success?
    requires loan.rateType == Fixed || k + 1 < ChangeMonth(loan)
    ensures Schedule(loan, terms, months).value[k] == Schedule(loan, other, months).value[k]
  {
    UntouchedRun(loan, terms, other, k + 1);
    RunPrefix(loan, terms, k + 1, months);
    RunPrefix(loan, other, k + 1, months);
  }

  lemma SameOpening(loan: Loan, terms: Terms, other: Terms, months: nat, k: nat)
    requires loan.Valid() && other == terms.(rateDelta := other.rateDelta) && k < months
    requires Schedule(loan, terms, months).Success? && Schedule(loan, other, months).Success?
    requires loan.rateType == Fixed || k < ChangeMonth(loan)
    ensures Schedule(loan, terms, months).value[k].opening == Schedule(loan, other, months).value[k].opening
  {
    var x := MonthOfSchedule(loan, terms, months, k);
    var y := MonthOfSchedule(loan, other, months, k);
    if k > 0 { UntouchedPayment(loan, terms, other, months, k - 1); }
  }

  lemma InterestOfMonth(loan: Loan, terms: Terms, months: nat, k: nat)
    requires loan.Valid() && !loan.repaymentType.CustomSchedule? && Schedule(loan, terms, months).Success? && k < months
    ensures var x := Schedule(loan, terms, months).value[k];
      x.interest == if x.opening > 0.0 && InContract(loan, terms, k + 1) then x.opening * (x.appliedRate / 12.0) else 0.0
  {
    var x := MonthOfSchedule(loan, terms, months, k);
    InterestIs(loan, terms, k + 1, x);
  }

  lemma InterestIs(loan: Loan, terms: Terms, month: int, x: Payment)
    requires !loan.repaymentType.CustomSchedule? && MonthIs(loan, terms, month, x)
    ensures x.interest == if x.opening > 0.0 && InContract(loan, terms, month) then x.opening * (x.appliedRate / 12.0) else 0.0
  {
    if x.opening > 0.0 && InContract(loan, terms, month) {
      assert Pays(loan, terms, month, x);
      match loan.repaymentType
      case Bullet =>
      case EqualPrincipal =>
      case Amortizing =>
    }
  }

  lemma RatesTell(opening: real, d: real, e: real)
    requires opening > 0.0 && d != e
    ensures opening * (d / 12.0) != opening * (e / 12.0)
  {
    assert opening * (d / 12.0) - opening * (e / 12.0) == opening * ((d - e) / 12.0);
  }

  /** Two rate changes that the floor does not touch give a computed loan different interest only from its change month
      on, and in that very month exactly if the loan is open and the month is one of the contract. */
  lemma RateShowsIff(loan: Loan, terms: Terms, other: Terms, months: nat, k: nat)
    requires loan.Valid() && !loan.repaymentType.CustomSchedule? && other == terms.(rateDelta := other.rateDelta) && k < months
    requires terms.rateDelta != other.rateDelta && loan.annualRate + terms.rateDelta >= 0.0 && loan.annualRate + other.rateDelta >= 0.0
    requires Schedule(loan, terms, months).Success? && Schedule(loan, other, months).Success?
    ensures var x, y := Schedule(loan, terms, months).value[k], Schedule(loan, other, months).value[k];
      && (x.interest != y.interest ==> loan.rateType == Variable && k + 1 >= ChangeMonth(loan))
      && (loan.rateType == Variable && k + 1 == ChangeMonth(loan) ==>
            (x.interest != y.interest <==> x.opening > 0.0 && InContract(loan, terms, k + 1)))
  {
    var x, y := Schedule(loan, terms, months).value[k], Schedule(loan, other, months).value[k];
    if loan.rateType == Fixed || k + 1 < ChangeMonth(loan) {
      UntouchedPayment(loan, terms, other, months, k);
    } else if k + 1 == ChangeMonth(loan) {
      SameOpening(loan, terms, other, months, k);
      InterestOfMonth(loan, terms, months, k);
      InterestOfMonth(loan, other, months, k);
      RateOfMonth(loan, terms, months, k);
      RateOfMonth(loan, other, months, k);
      if x.opening > 0.0 { RatesTell(x.opening, x.appliedRate, y.appliedRate); }
    }
  }
}
