/** When a loan is fully repaid: exactly the cases in which no grace month swallows a due repayment. */
module LoanRepayment {
  import opened Wrappers
  import opened Reals
  import opened Loan
  import opened LoanConservation

  /** The number of months before the first contractual payment. */
  function Offset(loan: Loan, terms: Terms): nat {
    if terms.start.Some? && loan.nextPaymentMonth.Some? && loan.nextPaymentMonth.value > terms.start.value
    then loan.nextPaymentMonth.value - terms.start.value else 0
  }

  /** Whether the `j`-th active period is a grace period, while the loan is still open. */
  predicate Graced(loan: Loan, terms: Terms, j: nat) {
    InGrace(loan, terms, Offset(loan, terms) + j, j)
  }

  function PaidPeriods(loan: Loan, terms: Terms, j: nat): nat {
    if j == 0 then 0 else PaidPeriods(loan, terms, j - 1) + if Graced(loan, terms, j) then 0 else 1
  }

  lemma {:induction false} PaidPeriodsBound(loan: Loan, terms: Terms, j: nat)
    ensures PaidPeriods(loan, terms, j) <= j
    ensures PaidPeriods(loan, terms, j) == j <==> forall i :: 1 <= i <= j ==> !Graced(loan, terms, i)
  {
    if j > 0 { PaidPeriodsBound(loan, terms, j - 1); }
  }

  lemma {:induction false} RunSucceeds(loan: Loan, terms: Terms, months: nat)
    requires !loan.repaymentType.CustomSchedule?
    ensures Run(loan, terms, months).Success?
  {
    if months > 0 { RunSucceeds(loan, terms, months - 1); }
  }

  /** While a balance is open, the active periods are the months since the first payment month. */
  lemma {:induction false} OpenLoanPeriod(loan: Loan, terms: Terms, months: nat)
    requires loan.Valid() && Run(loan, terms, months).Success? && Run(loan, terms, months).value.balance > 0.0
    ensures var offset := Offset(loan, terms);
      Run(loan, terms, months).value.period == if months <= offset then 0 else months - offset
  {
    if months > 0 {
      var before := Run(loan, terms, months - 1).value;
      ScheduleChained(loan, terms, months - 1);
      AdvanceSound(loan, terms, before);
      OpenLoanPeriod(loan, terms, months - 1);
      assert BeforeFirstPayment(loan, terms, months) <==> months <= Offset(loan, terms);
    }
  }

  /** The month of the `j`-th active period of an open loan. */
  lemma ActiveMonth(loan: Loan, terms: Terms, j: nat)
    requires loan.Valid() && 1 <= j <= loan.remainingMonths
    requires var p := Run(loan, terms, Offset(loan, terms) + j - 1); p.Success? && p.value.balance > 0.0
    ensures var month := Offset(loan, terms) + j;
      var p := Run(loan, terms, month - 1).value;
      var due := Due(loan, p.balance, AppliedRate(loan, terms, month) / 12.0, j);
      && Run(loan, terms, month).Success? == due.Success?
      && (due.Success? ==>
            var x := Run(loan, terms, month).value.payments[month - 1];
            && x.opening == p.balance
            && x.interest == due.value.interest
            && x.closing == Run(loan, terms, month).value.balance
            && x.principal == (if Graced(loan, terms, j) then 0.0 else Min(due.value.principal, p.balance))
            && x.closing == p.balance - x.principal)
  {
    var month := Offset(loan, terms) + j;
    OpenLoanPeriod(loan, terms, month - 1);
    assert !BeforeFirstPayment(loan, terms, month);
  }

  /** Nothing is due before the first payment month. */
  lemma {:induction false} NotYetDue(loan: Loan, terms: Terms, months: nat)
    requires loan.Valid() && months <= Offset(loan, terms)
    ensures Run(loan, terms, months).Success?
    ensures Run(loan, terms, months).value.balance == loan.principal
    ensures Run(loan, terms, months).value.period == 0
    ensures forall k :: 0 <= k < months ==>
      Run(loan, terms, months).value.payments[k].interest == 0.0 && Run(loan, terms, months).value.payments[k].principal == 0.0
  {
    if months > 0 {
      NotYetDue(loan, terms, months - 1);
      assert BeforeFirstPayment(loan, terms, months);
    }
  }

  lemma {:induction false} BulletBalance(loan: Loan, terms: Terms, j: nat)
    requires loan.Valid() && loan.principal > 0.0 && loan.repaymentType.Bullet? && j <= loan.remainingMonths
    ensures Run(loan, terms, Offset(loan, terms) + j).Success?
    ensures Run(loan, terms, Offset(loan, terms) + j).value.balance ==
      if j == loan.remainingMonths && !Graced(loan, terms, j) then 0.0 else loan.principal
  {
    if j == 0 {
      NotYetDue(loan, terms, Offset(loan, terms));
    } else {
      BulletBalance(loan, terms, j - 1);
      ActiveMonth(loan, terms, j);
    }
  }

  /** What is left of `p` once `paid` of its `n` equal shares are paid. */
  function Outstanding(p: real, n: nat, paid: nat): real
    requires n > 0
  {
    p * (n as real - paid as real) / (n as real)
  }

  lemma OutstandingIsShares(p: real, n: nat, paid: nat)
    requires n > 0
    ensures Outstanding(p, n, paid) == p / (n as real) * (n as real - paid as real)
  {
    var d := n as real;
    var share, left := p / d, d - paid as real;
    assert share * d == p;
    assert share * left * d == share * d * left;
    QuotientIs(p * left, d, share * left);
  }

  lemma OutstandingBounds(p: real, n: nat, paid: nat)
    requires p > 0.0 && paid < n
    ensures Outstanding(p, n, 0) == p
    ensures Outstanding(p, n, paid) > 0.0
    ensures p / (n as real) <= Outstanding(p, n, paid)
    ensures Outstanding(p, n, paid) - p / (n as real) == Outstanding(p, n, paid + 1) >= 0.0
  {
    var d, share := n as real, p / (n as real);
    assert share * d == p;
    if share <= 0.0 { MulNonNegative(-share, d); }
    OutstandingIsShares(p, n, 0);
    OutstandingIsShares(p, n, paid);
    OutstandingIsShares(p, n, paid + 1);
    SharesFall(share, d - paid as real);
  }

  lemma SharesFall(share: real, left: real)
    requires share > 0.0 && left >= 1.0
    ensures share <= share * left && share * left - share == share * (left - 1.0) >= 0.0
  {
    MulNonNegative(share, left - 1.0);
  }

  lemma OutstandingZero(p: real, n: nat, paid: nat)
    requires p > 0.0 && n > 0 && paid <= n
    ensures Outstanding(p, n, paid) == 0.0 <==> paid == n
  {
    var left := n as real - paid as real;
    var y := Outstanding(p, n, paid);
    assert y * (n as real) == p * left;
  }

  /** Equal principal pays one share of the initial principal in each period that is not graced; the clamp to the
      balance never binds. */
  lemma {:induction false} EqualPrincipalBalance(loan: Loan, terms: Terms, j: nat)
    requires loan.Valid() && loan.principal > 0.0 && loan.repaymentType.EqualPrincipal? && j <= loan.remainingMonths
    ensures Run(loan, terms, Offset(loan, terms) + j).Success?
    ensures Run(loan, terms, Offset(loan, terms) + j).value.balance ==
      Outstanding(loan.principal, loan.remainingMonths, PaidPeriods(loan, terms, j))
  {
    if j == 0 {
      NotYetDue(loan, terms, Offset(loan, terms));
      OutstandingBounds(loan.principal, loan.remainingMonths, 0);
    } else {
      EqualPrincipalBalance(loan, terms, j - 1);
      PaidPeriodsBound(loan, terms, j - 1);
      OutstandingBounds(loan.principal, loan.remainingMonths, PaidPeriods(loan, terms, j - 1));
      EqualPrincipalMonth(loan, terms, j);
    }
  }

  lemma EqualPrincipalMonth(loan: Loan, terms: Terms, j: nat)
    requires loan.Valid() && loan.repaymentType.EqualPrincipal? && 1 <= j <= loan.remainingMonths
    requires var p := Run(loan, terms, Offset(loan, terms) + j - 1);
      p.Success? && 0.0 < p.value.balance && loan.principal / (loan.remainingMonths as real) <= p.value.balance
    ensures Run(loan, terms, Offset(loan, terms) + j).Success?
    ensures Run(loan, terms, Offset(loan, terms) + j).value.balance ==
      Run(loan, terms, Offset(loan, terms) + j - 1).value.balance
        - if Graced(loan, terms, j) then 0.0 else loan.principal / (loan.remainingMonths as real)
  {
    ActiveMonth(loan, terms, j);
  }

  lemma ShareLeavesRemainder(balance: real, r: real, m: nat)
    requires balance > 0.0 && r >= 0.0 && m >= 2
    ensures 0.0 <= AnnuityPrincipal(balance, r, m) < balance
  {
    AnnuityIsShare(balance, r, m);
    SeriesAtLeast(r, m);
    var y, s := balance / Series(r, m), Series(r, m);
    assert y * s == balance;
    if y == balance { MulNonNegative(balance, s - 2.0); }
  }

  lemma {:induction false} AmortizingBalance(loan: Loan, terms: Terms, j: nat)
    requires loan.Valid() && loan.principal > 0.0 && loan.repaymentType.Amortizing? && j <= loan.remainingMonths
    ensures Run(loan, terms, Offset(loan, terms) + j).Success?
    ensures var balance := Run(loan, terms, Offset(loan, terms) + j).value.balance;
      if j == loan.remainingMonths && !Graced(loan, terms, j) then balance == 0.0 else balance > 0.0
  {
    if j == 0 {
      NotYetDue(loan, terms, Offset(loan, terms));
    } else {
      AmortizingBalance(loan, terms, j - 1);
      ActiveMonth(loan, terms, j);
      var month := Offset(loan, terms) + j;
      if j < loan.remainingMonths {
        ShareLeavesRemainder(Run(loan, terms, month - 1).value.balance, AppliedRate(loan, terms, month) / 12.0,
                             loan.remainingMonths - j + 1);
      }
    }
  }

  /** After the last active period the schedule is settled: every later month is a zero payment on a fixed balance. */
  lemma {:induction false} SettledAfterLastPeriod(loan: Loan, terms: Terms, months: nat)
    requires loan.Valid() && months >= Offset(loan, terms) + loan.remainingMonths
    requires Run(loan, terms, Offset(loan, terms) + loan.remainingMonths).Success?
    ensures var last := Offset(loan, terms) + loan.remainingMonths;
      && Run(loan, terms, months).Success?
      && Run(loan, terms, months).value.balance == Run(loan, terms, last).value.balance
      && forall k :: last <= k < months ==>
           var x := Run(loan, terms, months).value.payments[k]; x.interest == 0.0 && x.principal == 0.0
  {
    if months > Offset(loan, terms) + loan.remainingMonths {
      SettledAfterLastPeriod(loan, terms, months - 1);
      var before := Run(loan, terms, months - 1).value;
      if before.balance > 0.0 {
        OpenLoanPeriod(loan, terms, months - 1);
      }
    }
  }

  /** A caller can tell from the grace terms alone whether the schedule ever repays the loan. */
  ghost predicate RepaysInFull(loan: Loan, terms: Terms) {
    match loan.repaymentType
    case EqualPrincipal => forall j :: 1 <= j <= loan.remainingMonths ==> !Graced(loan, terms, j)
    case _ => !Graced(loan, terms, loan.remainingMonths)
  }

  /** Once the contract's periods have passed, the loan is at zero exactly when no grace period fell on a
      repayment: on any period for equal principal, on the last one for the other two types. */
  lemma RepaidExactlyWhenUngraced(loan: Loan, terms: Terms, months: nat)
    requires loan.Valid() && loan.principal > 0.0 && !loan.repaymentType.CustomSchedule?
    requires months >= Offset(loan, terms) + loan.remainingMonths
    ensures Run(loan, terms, months).Success?
    ensures Run(loan, terms, months).value.balance == 0.0 <==> RepaysInFull(loan, terms)
  {
    var n := loan.remainingMonths;
    match loan.repaymentType
    case Bullet =>
      BulletBalance(loan, terms, n);
      SettledAfterLastPeriod(loan, terms, months);
    case Amortizing =>
      AmortizingBalance(loan, terms, n);
      SettledAfterLastPeriod(loan, terms, months);
    case EqualPrincipal =>
      EqualPrincipalResidual(loan, terms, months);
      PaidPeriodsBound(loan, terms, n);
      OutstandingZero(loan.principal, n, PaidPeriods(loan, terms, n));
  }

  /** Each graced period of an equal-principal loan leaves its share of the principal unpaid for good. */
  lemma EqualPrincipalResidual(loan: Loan, terms: Terms, months: nat)
    requires loan.Valid() && loan.principal > 0.0 && loan.repaymentType.EqualPrincipal?
    requires months >= Offset(loan, terms) + loan.remainingMonths
    ensures Run(loan, terms, months).Success?
    ensures Run(loan, terms, months).value.balance ==
      Outstanding(loan.principal, loan.remainingMonths, PaidPeriods(loan, terms, loan.remainingMonths))
  {
    EqualPrincipalBalance(loan, terms, loan.remainingMonths);
    SettledAfterLastPeriod(loan, terms, months);
  }
}
