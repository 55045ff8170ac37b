/** More months of grace never lower a balance or an interest payment, but can make a custom schedule run out. */
module LoanGrace {
  import opened Reals
  import opened Loan
  import opened LoanConservation
  import opened LoanRepayment
  import opened LoanAnnuity
  import opened LoanMonotone

  ghost predicate MoreGrace(ta: Terms, tb: Terms) {
    tb == ta.(graceMonths := tb.graceMonths) && ta.graceMonths <= tb.graceMonths
  }

  /** The first calculation owes at most as much, and counts the same periods while it owes anything. */
  ghost predicate GraceOrdered(p: Progress, q: Progress) {
    && 0.0 <= p.balance <= q.balance
    && (p.balance > 0.0 ==> p.period == q.period)
    && |p.payments| == |q.payments|
    && forall k :: 0 <= k < |p.payments| ==>
         && p.payments[k].opening <= q.payments[k].opening
         && 0.0 <= p.payments[k].interest <= q.payments[k].interest
  }

  /** What one ungraced month leaves of a balance. */
  function Left(balance: real, due: CustomPayment): real { Max(0.0, balance - Min(due.principal, balance)) }

  lemma DueGrows(loan: Loan, x: real, y: real, r: real, period: nat)
    requires loan.Valid() && 0.0 < x <= y && r >= 0.0 && 0 < period <= loan.remainingMonths
    ensures var d, e := Due(loan, x, r, period), Due(loan, y, r, period);
      && d.Success? == e.Success?
      && (d.Success? ==> 0.0 <= d.value.interest <= e.value.interest && 0.0 <= Left(x, d.value) <= Left(y, e.value) <= y)
  {
    DueSound(loan, x, r, period);
    DueSound(loan, y, r, period);
    match loan.repaymentType
    case Bullet => MulMonotone(x, y, r, r);
    case EqualPrincipal =>
      var share := loan.principal / (loan.remainingMonths as real);
      MulMonotone(x, y, r, r);
      QuotientMonotone(0.0, loan.principal, loan.remainingMonths as real);
      CappedLeftGrows(x, y, share);
      assert Due(loan, x, r, period).value == CustomPayment(Min(x, share), x * r);
      assert Due(loan, y, r, period).value == CustomPayment(Min(y, share), y * r);
    case Amortizing =>
      var n := loan.remainingMonths - period + 1;
      MulMonotone(x, y, r, r);
      AnnuityRestOrdered(x, y, r, r, n);
      AnnuityLeft(loan, x, r, period);
      AnnuityLeft(loan, y, r, period);
    case CustomSchedule =>
  }

  lemma AnnuityLeft(loan: Loan, x: real, r: real, period: nat)
    requires loan.repaymentType.Amortizing? && x >= 0.0 && r >= 0.0 && 0 < period <= loan.remainingMonths
    ensures var d, n := Due(loan, x, r, period), loan.remainingMonths - period + 1;
      d.Success? && d.value.interest == x * r && Left(x, d.value) == AnnuityRest(x, r, n) && 0.0 <= AnnuityRest(x, r, n) <= x
  {
    AnnuityIsShare(x, r, loan.remainingMonths - period + 1);
    if r == 0.0 { assert x * r == 0.0; }
  }

  lemma CappedLeftGrows(x: real, y: real, share: real)
    requires 0.0 < x <= y && share >= 0.0
    ensures 0.0 <= Max(0.0, x - Min(Min(x, share), x)) <= Max(0.0, y - Min(Min(y, share), y)) <= y
  {
  }

  lemma AdvanceGraceOrdered(loan: Loan, ta: Terms, tb: Terms, p: Progress, q: Progress)
    requires loan.Valid() && MoreGrace(ta, tb) && GraceOrdered(p, q)
    ensures var u, v := Advance(loan, ta, p), Advance(loan, tb, q);
      v.Success? ==> u.Success? && GraceOrdered(u.value, v.value)
  {
    var month := |p.payments| + 1;
    var r := AppliedRate(loan, ta, month) / 12.0;
    if Advance(loan, tb, q).Success? {
      AdvanceSound(loan, tb, q);
      if p.balance > 0.0 && !BeforeFirstPayment(loan, ta, month) && p.period + 1 <= loan.remainingMonths {
        DueGrows(loan, p.balance, q.balance, r, p.period + 1);
      }
    }
  }

  /** More grace: whenever the schedule with more grace exists, so does the other one, and month by month it has at
      most the same opening balance and the same interest. */
  lemma {:induction false} MoreGraceRaisesSchedule(loan: Loan, ta: Terms, tb: Terms, months: nat)
    requires loan.Valid() && MoreGrace(ta, tb) && Run(loan, tb, months).Success?
    ensures Run(loan, ta, months).Success? && GraceOrdered(Run(loan, ta, months).value, Run(loan, tb, months).value)
  {
    if months > 0 {
      MoreGraceRaisesSchedule(loan, ta, tb, months - 1);
      AdvanceGraceOrdered(loan, ta, tb, Run(loan, ta, months - 1).value, Run(loan, tb, months - 1).value);
    }
  }

  // ---------- custom schedules ----------

  /** The instalments of the first `j` periods that are not graced. */
  function UngracedInstalments(loan: Loan, terms: Terms, j: nat): real
    requires j <= |loan.customSchedule|
  {
    if j == 0 then 0.0
    else
      UngracedInstalments(loan, terms, j - 1) + if Graced(loan, terms, j) then 0.0 else loan.customSchedule[j - 1].principal
  }

  /** A custom loan runs out of instalments while it is still owed, within the horizon. */
  ghost predicate RunsOut(loan: Loan, terms: Terms, months: nat) {
    var count := |loan.customSchedule|;
    && loan.repaymentType.CustomSchedule?
    && count < loan.remainingMonths
    && Offset(loan, terms) + count + 1 <= months
    && UngracedInstalments(loan, terms, count) < loan.principal
  }

  lemma {:induction false} InstalmentsGrow(loan: Loan, terms: Terms, i: nat, j: nat)
    requires loan.Valid() && i <= j <= |loan.customSchedule|
    ensures 0.0 <= UngracedInstalments(loan, terms, i) <= UngracedInstalments(loan, terms, j)
    decreases j
  {
    if i < j {
      InstalmentsGrow(loan, terms, i, j - 1);
    } else if i > 0 {
      InstalmentsGrow(loan, terms, i - 1, j - 1);
    }
  }

  function Rest(loan: Loan, terms: Terms, j: nat): real
    requires j <= |loan.customSchedule|
  {
    Max(0.0, loan.principal - UngracedInstalments(loan, terms, j))
  }

  /** While instalments last, a custom loan owes its principal less the ungraced instalments so far. */
  lemma {:induction false} CustomBalance(loan: Loan, terms: Terms, j: nat)
    requires loan.Valid() && loan.repaymentType.CustomSchedule?
    requires j <= loan.remainingMonths && j <= |loan.customSchedule|
    ensures Run(loan, terms, Offset(loan, terms) + j).Success?
    ensures OwedAfter(loan, terms, j) == Rest(loan, terms, j)
  {
    if j == 0 {
      NotYetDue(loan, terms, Offset(loan, terms));
    } else {
      CustomBalance(loan, terms, j - 1);
      CustomMonth(loan, terms, j);
      InstalmentsGrow(loan, terms, j - 1, j);
    }
  }

  lemma CustomMonth(loan: Loan, terms: Terms, j: nat)
    requires loan.Valid() && loan.repaymentType.CustomSchedule?
    requires 1 <= j <= loan.remainingMonths && j <= |loan.customSchedule|
    requires Run(loan, terms, Offset(loan, terms) + j - 1).Success? && OwedAfter(loan, terms, j - 1) >= 0.0
    ensures Run(loan, terms, Offset(loan, terms) + j).Success?
    ensures OwedAfter(loan, terms, j) ==
      Max(0.0, OwedAfter(loan, terms, j - 1) - if Graced(loan, terms, j) then 0.0 else loan.customSchedule[j - 1].principal)
  {
    if OwedAfter(loan, terms, j - 1) > 0.0 {
      ActiveMonth(loan, terms, j);
    } else {
      StaysSettled(loan, terms, Offset(loan, terms) + j - 1, Offset(loan, terms) + j);
    }
  }

  /** A settled loan stays settled and pays nothing. */
  lemma {:induction false} StaysSettled(loan: Loan, terms: Terms, from: nat, to: nat)
    requires loan.Valid() && from <= to && Run(loan, terms, from).Success? && Run(loan, terms, from).value.balance == 0.0
    ensures Run(loan, terms, to).Success? && Run(loan, terms, to).value.balance == 0.0
    ensures forall k :: from <= k < to ==> Run(loan, terms, to).value.payments[k].interest == 0.0
  {
    if from < to { StaysSettled(loan, terms, from, to - 1); }
  }

  /** A schedule fails exactly when a custom loan runs out of instalments while it is still owed. */
  lemma ScheduleFailsIffRunsOut(loan: Loan, terms: Terms, months: nat)
    requires loan.Valid()
    ensures Schedule(loan, terms, months).Failure? <==> RunsOut(loan, terms, months)
  {
    if loan.repaymentType.CustomSchedule? {
      var n, count, offset := loan.remainingMonths, |loan.customSchedule|, Offset(loan, terms);
      var last := if count < n then count else n;
      CustomBalance(loan, terms, last);
      if months <= offset + last {
        RunsUpTo(loan, terms, months, offset + last);
      } else if OwedAfter(loan, terms, last) == 0.0 {
        InstalmentsGrow(loan, terms, last, count);
        StaysSettled(loan, terms, offset + last, months);
      } else if count < n {
        ActiveMonth(loan, terms, count + 1);
        FailurePersists(loan, terms, offset + count + 1, months);
      } else {
        SettledAfterLastPeriod(loan, terms, months);
      }
    } else {
      RunSucceeds(loan, terms, months);
    }
  }

  lemma RunsUpTo(loan: Loan, terms: Terms, k: nat, months: nat)
    requires k <= months && Run(loan, terms, months).Success?
    ensures Run(loan, terms, k).Success?
  {
    RunPrefix(loan, terms, k, months);
  }

  // ---------- when more grace raises interest ----------

  /** A payment that only the schedule with less grace makes. */
  predicate Deferred(loan: Loan, ta: Terms, tb: Terms, i: nat) { !Graced(loan, ta, i) && i <= tb.graceMonths }

  ghost predicate DefersBy(loan: Loan, ta: Terms, tb: Terms, j: nat) {
    exists i: nat :: 1 <= i <= j && Deferred(loan, ta, tb, i)
  }

  /** Whether the deferral raises the interest of month `month`: a share of the principal was deferred before and the
      month bears a rate, or a custom loan that would have been settled is still owed and asks for interest. */
  ghost predicate RaisesInterestIn(loan: Loan, ta: Terms, tb: Terms, month: int) {
    var j := month - Offset(loan, ta);
    && 1 <= j <= loan.remainingMonths
    && match loan.repaymentType
       case Bullet => false
       case EqualPrincipal => loan.principal > 0.0 && AppliedRate(loan, ta, month) > 0.0 && DefersBy(loan, ta, tb, j - 1)
       case Amortizing => loan.principal > 0.0 && AppliedRate(loan, ta, month) > 0.0 && DefersBy(loan, ta, tb, j - 1)
       case CustomSchedule =>
         && j <= |loan.customSchedule|
         && loan.customSchedule[j - 1].interest > 0.0
         && UngracedInstalments(loan, tb, j - 1) < loan.principal <= UngracedInstalments(loan, ta, j - 1)
  }

  /** The interest of month `month` of a schedule that exists. */
  function InterestIn(loan: Loan, terms: Terms, month: nat): real
    requires month >= 1
  {
    match Run(loan, terms, month)
    case Success(p) => p.payments[month - 1].interest
    case Failure(_) => 0.0
  }

  lemma GraceFacts(loan: Loan, ta: Terms, tb: Terms, i: nat)
    requires loan.Valid() && MoreGrace(ta, tb)
    ensures Offset(loan, tb) == Offset(loan, ta)
    ensures forall month: int :: AppliedRate(loan, tb, month) == AppliedRate(loan, ta, month)
    ensures Graced(loan, tb, i) <==> Graced(loan, ta, i) || i <= tb.graceMonths
    ensures Deviates(loan, ta, loan, tb, i) <==> Deferred(loan, ta, tb, i)
  {
  }

  lemma {:induction false} PaidPeriodsFall(loan: Loan, ta: Terms, tb: Terms, j: nat)
    requires loan.Valid() && MoreGrace(ta, tb)
    ensures PaidPeriods(loan, tb, j) <= PaidPeriods(loan, ta, j) <= j
    ensures PaidPeriods(loan, tb, j) < PaidPeriods(loan, ta, j) <==> DefersBy(loan, ta, tb, j)
  {
    if j > 0 {
      PaidPeriodsFall(loan, ta, tb, j - 1);
      GraceFacts(loan, ta, tb, j);
    }
  }

  lemma FewerPaidOweMore(p: real, n: nat, few: nat, many: nat)
    requires p > 0.0 && few <= many < n
    ensures 0.0 < Outstanding(p, n, many) <= Outstanding(p, n, few)
    ensures Outstanding(p, n, many) < Outstanding(p, n, few) <==> few < many
  {
    OutstandingBounds(p, n, many);
    OutstandingIsShares(p, n, few);
    OutstandingIsShares(p, n, many);
    var share, d := p / (n as real), n as real;
    assert share * d == p;
    if share <= 0.0 { MulNonNegative(-share, d); }
    MoreSharesMore(share, d - many as real, d - few as real);
  }

  lemma MoreSharesMore(share: real, a: real, b: real)
    requires share > 0.0 && a <= b
    ensures share * a <= share * b && (share * a < share * b <==> a < b)
  {
    if a < b { assert share * (b - a) > 0.0; }
  }

  /** What both schedules owe before an active period of a loan that pays shares. */
  lemma OwedBefore(loan: Loan, ta: Terms, tb: Terms, j: nat)
    requires loan.Valid() && loan.principal > 0.0 && MoreGrace(ta, tb) && 1 <= j <= loan.remainingMonths
    requires loan.repaymentType.EqualPrincipal? || loan.repaymentType.Amortizing?
    ensures Run(loan, ta, Offset(loan, ta) + j - 1).Success? && Run(loan, tb, Offset(loan, ta) + j - 1).Success?
    ensures 0.0 < OwedAfter(loan, ta, j - 1) <= OwedAfter(loan, tb, j - 1)
    ensures OwedAfter(loan, ta, j - 1) < OwedAfter(loan, tb, j - 1) <==> DefersBy(loan, ta, tb, j - 1)
  {
    GraceFacts(loan, ta, tb, j);
    if loan.repaymentType.Amortizing? {
      AmortizingBalance(loan, ta, j - 1);
      AmortizingBalance(loan, tb, j - 1);
      DearerAnnuityOwesMoreIff(loan, ta, loan, tb, j - 1);
      forall i: nat ensures Deviates(loan, ta, loan, tb, i) <==> Deferred(loan, ta, tb, i) { GraceFacts(loan, ta, tb, i); }
    } else {
      EqualPrincipalBalance(loan, ta, j - 1);
      EqualPrincipalBalance(loan, tb, j - 1);
      PaidPeriodsFall(loan, ta, tb, j - 1);
      FewerPaidOweMore(loan.principal, loan.remainingMonths, PaidPeriods(loan, tb, j - 1), PaidPeriods(loan, ta, j - 1));
    }
  }

  /** Every computed contract asks for the interest of its balance. */
  lemma InterestOfBalance(loan: Loan, terms: Terms, j: nat)
    requires loan.Valid() && !loan.repaymentType.CustomSchedule? && 1 <= j <= loan.remainingMonths
    requires Run(loan, terms, Offset(loan, terms) + j - 1).Success? && OwedAfter(loan, terms, j - 1) > 0.0
    ensures InterestIn(loan, terms, Offset(loan, terms) + j)
      == Times(OwedAfter(loan, terms, j - 1), AppliedRate(loan, terms, Offset(loan, terms) + j) / 12.0)
  {
    ActiveMonth(loan, terms, j);
    if loan.repaymentType.Amortizing? {
      AnnuityDue(loan, OwedAfter(loan, terms, j - 1), AppliedRate(loan, terms, Offset(loan, terms) + j) / 12.0, j);
    }
  }

  lemma ProductRises(x: real, y: real, r: real)
    requires 0.0 < x <= y && r >= 0.0
    ensures Times(x, r) < Times(y, r) <==> x < y && r > 0.0
  {
    if x == y {
    } else if r == 0.0 {
      assert x * r == 0.0 && y * r == 0.0;
    } else {
      assert (y - x) * r > 0.0;
      assert y * r == x * r + (y - x) * r;
    }
  }

  lemma ShareInterestRises(loan: Loan, ta: Terms, tb: Terms, j: nat)
    requires loan.Valid() && loan.principal > 0.0 && MoreGrace(ta, tb) && 1 <= j <= loan.remainingMonths
    requires loan.repaymentType.EqualPrincipal? || loan.repaymentType.Amortizing?
    ensures var month := Offset(loan, ta) + j;
      (InterestIn(loan, ta, month) < InterestIn(loan, tb, month)) <==> (AppliedRate(loan, ta, month) > 0.0 && DefersBy(loan, ta, tb, j - 1))
  {
    OwedBefore(loan, ta, tb, j);
    BothInterests(loan, ta, tb, j);
    ProductRises(OwedAfter(loan, ta, j - 1), OwedAfter(loan, tb, j - 1), AppliedRate(loan, ta, Offset(loan, ta) + j) / 12.0);
  }

  lemma BothInterests(loan: Loan, ta: Terms, tb: Terms, j: nat)
    requires loan.Valid() && !loan.repaymentType.CustomSchedule? && MoreGrace(ta, tb) && 1 <= j <= loan.remainingMonths
    requires Run(loan, ta, Offset(loan, ta) + j - 1).Success? && OwedAfter(loan, ta, j - 1) > 0.0
    requires Run(loan, tb, Offset(loan, ta) + j - 1).Success? && OwedAfter(loan, tb, j - 1) > 0.0
    ensures var month := Offset(loan, ta) + j;
      var r := AppliedRate(loan, ta, month) / 12.0;
      && InterestIn(loan, ta, month) == Times(OwedAfter(loan, ta, j - 1), r)
      && InterestIn(loan, tb, month) == Times(OwedAfter(loan, tb, j - 1), r)
  {
    GraceFacts(loan, ta, tb, j);
    InterestOfBalance(loan, ta, j);
    InterestOfBalance(loan, tb, j);
  }

  lemma BulletInterestStays(loan: Loan, ta: Terms, tb: Terms, j: nat)
    requires loan.Valid() && loan.principal > 0.0 && loan.repaymentType.Bullet? && MoreGrace(ta, tb)
    requires 1 <= j <= loan.remainingMonths
    ensures InterestIn(loan, ta, Offset(loan, ta) + j) == InterestIn(loan, tb, Offset(loan, ta) + j)
  {
    GraceFacts(loan, ta, tb, j);
    BulletBalance(loan, ta, j - 1);
    BulletBalance(loan, tb, j - 1);
    BothInterests(loan, ta, tb, j);
  }

  lemma CustomInterest(loan: Loan, terms: Terms, j: nat)
    requires loan.Valid() && loan.repaymentType.CustomSchedule?
    requires 1 <= j <= loan.remainingMonths && j <= |loan.customSchedule|
    ensures InterestIn(loan, terms, Offset(loan, terms) + j) ==
      if UngracedInstalments(loan, terms, j - 1) < loan.principal then loan.customSchedule[j - 1].interest else 0.0
  {
    CustomBalance(loan, terms, j - 1);
    CustomBalance(loan, terms, j);
    if OwedAfter(loan, terms, j - 1) > 0.0 {
      ActiveMonth(loan, terms, j);
    } else {
      StaysSettled(loan, terms, Offset(loan, terms) + j - 1, Offset(loan, terms) + j);
    }
  }

  /** A custom loan whose instalments have run out and that still has a schedule is settled. */
  lemma CustomSettled(loan: Loan, terms: Terms, j: nat)
    requires loan.Valid() && loan.repaymentType.CustomSchedule?
    requires |loan.customSchedule| < j <= loan.remainingMonths && Run(loan, terms, Offset(loan, terms) + j).Success?
    ensures InterestIn(loan, terms, Offset(loan, terms) + j) == 0.0
  {
    var count := |loan.customSchedule|;
    ScheduleFailsIffRunsOut(loan, terms, Offset(loan, terms) + j);
    CustomBalance(loan, terms, count);
    StaysSettled(loan, terms, Offset(loan, terms) + count, Offset(loan, terms) + j);
  }

  /** Before the first and after the last period, and without a debt, no interest is due. */
  lemma IdleMonth(loan: Loan, terms: Terms, month: nat)
    requires loan.Valid() && month >= 1 && Run(loan, terms, month).Success?
    requires month <= Offset(loan, terms) || month > Offset(loan, terms) + loan.remainingMonths || loan.principal == 0.0
    ensures InterestIn(loan, terms, month) == 0.0
  {
    if month <= Offset(loan, terms) {
      NotYetDue(loan, terms, month);
    } else if loan.principal == 0.0 {
      assert Run(loan, terms, 0).value.balance == 0.0;
      StaysSettled(loan, terms, 0, month);
    } else {
      RunsUpTo(loan, terms, Offset(loan, terms) + loan.remainingMonths, month);
      SettledAfterLastPeriod(loan, terms, month);
    }
  }

  /** More grace raises the interest of a month exactly when some payment before it was deferred and the month bears
      interest on what is still owed; it never lowers it. */
  lemma GraceRaisesInterestIff(loan: Loan, ta: Terms, tb: Terms, month: nat)
    requires loan.Valid() && MoreGrace(ta, tb) && month >= 1 && Run(loan, tb, month).Success?
    ensures Run(loan, ta, month).Success? && InterestIn(loan, ta, month) <= InterestIn(loan, tb, month)
    ensures InterestIn(loan, ta, month) < InterestIn(loan, tb, month) <==> RaisesInterestIn(loan, ta, tb, month)
  {
    MoreGraceRaisesSchedule(loan, ta, tb, month);
    GraceFacts(loan, ta, tb, 1);
    var j := month - Offset(loan, ta);
    if j < 1 || j > loan.remainingMonths {
      IdleMonth(loan, ta, month);
      IdleMonth(loan, tb, month);
    } else if loan.repaymentType.CustomSchedule? {
      if j <= |loan.customSchedule| {
        CustomInterest(loan, ta, j);
        CustomInterest(loan, tb, j);
      } else {
        CustomSettled(loan, ta, j);
        CustomSettled(loan, tb, j);
      }
    } else if loan.principal == 0.0 {
      IdleMonth(loan, ta, month);
      IdleMonth(loan, tb, month);
    } else if loan.repaymentType.Bullet? {
      BulletInterestStays(loan, ta, tb, j);
    } else {
      ShareInterestRises(loan, ta, tb, j);
    }
  }
}
