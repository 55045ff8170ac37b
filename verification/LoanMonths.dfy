/** Month by month, what a schedule is: an independent description of every payment, and in which month a rate change
    begins. */
module LoanMonths {
  import opened Wrappers
  import opened Reals
  import opened Loan
  import opened LoanConservation
  import opened LoanRepayment

  /** The months of the contract: as many as remain, from the first payment month on. */
  predicate InContract(loan: Loan, terms: Terms, month: int) {
    Offset(loan, terms) < month <= Offset(loan, terms) + loan.remainingMonths
  }

  /** A fixed loan keeps its rate; a variable one changes it from its renewal month on, or at once if it has none. */
  function DeclaredRate(loan: Loan, delta: real, month: int): real {
    if loan.rateType.Fixed? || (loan.renewalMonth.Some? && month < loan.renewalMonth.value) then loan.annualRate
    else Max(0.0, loan.annualRate + delta)
  }

  /** The first periods of the contract, as many as are deferred, and the calendar months up to the end of grace. */
  predicate Forgiven(loan: Loan, terms: Terms, month: int) {
    || month - Offset(loan, terms) <= terms.graceMonths
    || (terms.start.Some? && loan.graceEndMonth.Some? && terms.start.value + (month - 1) <= loan.graceEndMonth.value)
  }

  /** Interest and principal of a month of the contract, from its opening balance. */
  ghost predicate Pays(loan: Loan, terms: Terms, month: int, x: Payment)
    requires InContract(loan, terms, month)
  {
    var n, period, rate := loan.remainingMonths, month - Offset(loan, terms), DeclaredRate(loan, terms.rateDelta, month) / 12.0;
    var forgiven := Forgiven(loan, terms, month);
    match loan.repaymentType
    case Bullet =>
      && x.interest == x.opening * rate
      && x.principal == (if period == n && !forgiven then x.opening else 0.0)
    case EqualPrincipal =>
      && x.interest == x.opening * rate
      && x.principal == (if forgiven then 0.0 else Min(x.opening, loan.principal / (n as real)))
    case Amortizing =>
      && x.interest == x.opening * rate
      && Series(rate, n - period + 1) != 0.0
      && x.principal == (if forgiven then 0.0 else x.opening / Series(rate, n - period + 1))
    case CustomSchedule =>
      && period <= |loan.customSchedule|
      && x.interest == loan.customSchedule[period - 1].interest
      && x.principal == (if forgiven then 0.0 else Min(x.opening, loan.customSchedule[period - 1].principal))
  }

  ghost predicate MonthIs(loan: Loan, terms: Terms, month: int, x: Payment) {
    && x.month == month && x.appliedRate == DeclaredRate(loan, terms.rateDelta, month)
    && x.closing == x.opening - x.principal
    && if x.opening > 0.0 && InContract(loan, terms, month) then Pays(loan, terms, month, x) else x.interest == 0.0 && x.principal == 0.0
  }

  function OpeningOf(loan: Loan, s: seq<Payment>, k: nat): real
    requires k <= |s|
  {
    if k == 0 then loan.principal else s[k - 1].closing
  }

  ghost predicate MonthAt(loan: Loan, terms: Terms, s: seq<Payment>, k: nat) {
    k < |s| && s[k].opening == OpeningOf(loan, s, k) && MonthIs(loan, terms, k + 1, s[k])
  }

  /** A list of payments that begins with the principal, carries the balance on, and has every month as described. */
  ghost predicate IsSchedule(loan: Loan, terms: Terms, s: seq<Payment>) {
    forall k: nat :: k < |s| ==> MonthAt(loan, terms, s, k)
  }

  lemma SameMonth(loan: Loan, terms: Terms, init: seq<Payment>, s: seq<Payment>, k: nat)
    requires k < |init| <= |s| && init <= s
    ensures MonthAt(loan, terms, s, k) <==> MonthAt(loan, terms, init, k)
  {
    assert s[k] == init[k] && (k > 0 ==> s[k - 1] == init[k - 1]);
  }

  lemma ScheduleExtends(loan: Loan, terms: Terms, init: seq<Payment>, x: Payment)
    requires IsSchedule(loan, terms, init) && x.opening == OpeningOf(loan, init, |init|) && MonthIs(loan, terms, |init| + 1, x)
    ensures IsSchedule(loan, terms, init + [x])
  {
    forall k: nat | k < |init + [x]| ensures MonthAt(loan, terms, init + [x], k) {
      if k < |init| { SameMonth(loan, terms, init, init + [x], k); }
    }
  }

  // ---------- the calculation gives such a list ----------

  lemma RateIs(loan: Loan, terms: Terms, month: nat)
    requires loan.Valid() && month >= 1
    ensures AppliedRate(loan, terms, month) == DeclaredRate(loan, terms.rateDelta, month) >= 0.0
  {
  }

  lemma ForgivenIs(loan: Loan, terms: Terms, month: nat, period: nat)
    requires month == Offset(loan, terms) + period
    ensures InGrace(loan, terms, month, period) == Forgiven(loan, terms, month)
  {
  }

  lemma FirstPaymentIs(loan: Loan, terms: Terms, month: nat)
    requires month >= 1
    ensures BeforeFirstPayment(loan, terms, month) <==> month <= Offset(loan, terms)
  {
  }

  ghost predicate PaysDue(loan: Loan, terms: Terms, month: nat, period: nat, x: Payment)
    requires 1 <= period <= loan.remainingMonths
  {
    var due := Due(loan, x.opening, AppliedRate(loan, terms, month) / 12.0, period);
    && due.Success? && x.interest == due.value.interest
    && x.principal == Min(if InGrace(loan, terms, month, period) then 0.0 else due.value.principal, x.opening)
  }

  lemma AnnuityDueIs(loan: Loan, opening: real, r: real, period: nat)
    requires loan.repaymentType.Amortizing? && opening > 0.0 && r >= 0.0 && 1 <= period <= loan.remainingMonths
    ensures var n := loan.remainingMonths - period + 1;
      && Series(r, n) != 0.0 && 0.0 <= opening / Series(r, n) <= opening
      && Due(loan, opening, r, period) == Success(CustomPayment(opening / Series(r, n), opening * r))
  {
    var n := loan.remainingMonths - period + 1;
    AnnuityIsShare(opening, r, n);
    if n == 1 { LastShare(opening, r); }
    if r == 0.0 { NoInterest(opening, r); }
    AmortizingDueIs(loan, opening, r, period, opening / Series(r, n));
  }

  lemma AmortizingDueIs(loan: Loan, opening: real, r: real, period: nat, share: real)
    requires loan.repaymentType.Amortizing? && r >= 0.0 && 1 <= period <= loan.remainingMonths
    requires AnnuityPrincipal(opening, r, loan.remainingMonths - period + 1) == share
    requires (period == loan.remainingMonths ==> share == opening) && (r == 0.0 ==> opening * r == 0.0)
    ensures Due(loan, opening, r, period) == Success(CustomPayment(share, opening * r))
  {
  }

  lemma NoInterest(opening: real, r: real)
    requires r == 0.0
    ensures opening * r == 0.0
  {
  }

  lemma AnnuityPays(loan: Loan, terms: Terms, month: nat, period: nat, x: Payment)
    requires loan.Valid() && month == Offset(loan, terms) + period && 1 <= period <= loan.remainingMonths && x.opening > 0.0
    requires loan.repaymentType.Amortizing?
    ensures Pays(loan, terms, month, x) <==> PaysDue(loan, terms, month, period, x)
  {
    RateIs(loan, terms, month);
    ForgivenIs(loan, terms, month, period);
    AnnuityDueIs(loan, x.opening, AppliedRate(loan, terms, month) / 12.0, period);
  }

  lemma LastShare(opening: real, r: real)
    ensures Series(r, 1) == 1.0 && opening / Series(r, 1) == opening
  {
    assert Series(r, 0) == 0.0;
  }

  lemma SharePays(loan: Loan, terms: Terms, month: nat, period: nat, x: Payment)
    requires loan.Valid() && month == Offset(loan, terms) + period && 1 <= period <= loan.remainingMonths && x.opening > 0.0
    requires loan.repaymentType.Bullet? || loan.repaymentType.EqualPrincipal?
    ensures Pays(loan, terms, month, x) <==> PaysDue(loan, terms, month, period, x)
  {
    RateIs(loan, terms, month);
    ForgivenIs(loan, terms, month, period);
    QuotientMonotone(0.0, loan.principal, loan.remainingMonths as real);
  }

  lemma CustomPays(loan: Loan, terms: Terms, month: nat, period: nat, x: Payment)
    requires loan.Valid() && month == Offset(loan, terms) + period && 1 <= period <= loan.remainingMonths && x.opening > 0.0
    requires loan.repaymentType.CustomSchedule?
    ensures Pays(loan, terms, month, x) <==> PaysDue(loan, terms, month, period, x)
  {
    ForgivenIs(loan, terms, month, period);
  }

  /** The asked payment of an active period, after grace and the cap at the balance, is the described one. */
  lemma DuePays(loan: Loan, terms: Terms, month: nat, period: nat, x: Payment)
    requires loan.Valid() && month == Offset(loan, terms) + period && 1 <= period <= loan.remainingMonths && x.opening > 0.0
    ensures Pays(loan, terms, month, x) <==> PaysDue(loan, terms, month, period, x)
  {
    match loan.repaymentType
    case Bullet => SharePays(loan, terms, month, period, x);
    case EqualPrincipal => SharePays(loan, terms, month, period, x);
    case Amortizing => AnnuityPays(loan, terms, month, period, x);
    case CustomSchedule => CustomPays(loan, terms, month, period, x);
  }

  lemma AdvanceIs(loan: Loan, terms: Terms, months: nat)
    requires loan.Valid() && Run(loan, terms, months).Success?
    ensures var p, after := Run(loan, terms, months).value, Run(loan, terms, months + 1);
      && p.balance >= 0.0
      && (after.Success? ==>
            && |after.value.payments| == months + 1 && after.value.payments[..months] == p.payments
            && after.value.payments[months].opening == p.balance && after.value.balance == after.value.payments[months].closing
            && MonthIs(loan, terms, months + 1, after.value.payments[months]))
      && (after.Failure? ==> forall x: Payment :: x.opening == p.balance ==> !MonthIs(loan, terms, months + 1, x))
  {
    var p, month := Run(loan, terms, months).value, months + 1;
    ScheduleChained(loan, terms, months);
    RateIs(loan, terms, month);
    FirstPaymentIs(loan, terms, month);
    if p.balance > 0.0 {
      OpenLoanPeriod(loan, terms, months);
      if InContract(loan, terms, month) {
        var period := month - Offset(loan, terms);
        assert p.period + 1 == period;
        forall x: Payment | x.opening == p.balance
          ensures Due(loan, p.balance, AppliedRate(loan, terms, month) / 12.0, period).Failure? ==> !Pays(loan, terms, month, x)
        {
          DuePays(loan, terms, month, period, x);
        }
        if Advance(loan, terms, p).Success? {
          DuePays(loan, terms, month, period, Run(loan, terms, month).value.payments[months]);
          AdvanceCloses(loan, terms, p);
        }
      }
    }
  }

  lemma AdvanceCloses(loan: Loan, terms: Terms, p: Progress)
    requires loan.Valid() && p.balance >= 0.0 && Advance(loan, terms, p).Success?
    ensures var x := Advance(loan, terms, p).value.payments[|p.payments|]; x.closing == x.opening - x.principal
  {
    AdvanceSound(loan, terms, p);
  }

  /** Every month of a schedule is as described. */
  lemma {:induction false} ScheduleIsDescribed(loan: Loan, terms: Terms, months: nat)
    requires loan.Valid() && Run(loan, terms, months).Success?
    ensures IsSchedule(loan, terms, Run(loan, terms, months).value.payments)
    ensures |Run(loan, terms, months).value.payments| == months
    ensures Run(loan, terms, months).value.balance == OpeningOf(loan, Run(loan, terms, months).value.payments, months)
  {
    if months > 0 {
      ScheduleIsDescribed(loan, terms, months - 1);
      AdvanceIs(loan, terms, months - 1);
      var before, after := Run(loan, terms, months - 1).value.payments, Run(loan, terms, months).value.payments;
      ScheduleExtends(loan, terms, before, after[months - 1]);
      assert after == before + [after[months - 1]];
    }
  }

  lemma OnePayment(loan: Loan, terms: Terms, month: int, x: Payment, y: Payment)
    requires x.opening == y.opening && MonthIs(loan, terms, month, x) && MonthIs(loan, terms, month, y)
    ensures x == y
  {
  }

  ghost predicate RunsTo(loan: Loan, terms: Terms, s: seq<Payment>) {
    Run(loan, terms, |s|).Success? && Run(loan, terms, |s|).value.payments == s
  }

  /** Nothing else is: the description leaves one list, and the calculation fails only if it leaves none. */
  lemma {:induction false} DescribedIsSchedule(loan: Loan, terms: Terms, s: seq<Payment>)
    requires loan.Valid() && IsSchedule(loan, terms, s)
    ensures RunsTo(loan, terms, s)
    decreases |s|
  {
    if s != [] {
      var init, x := ShorterSchedule(loan, terms, s);
      DescribedIsSchedule(loan, terms, init);
      LastMonthFollows(loan, terms, init, x);
    }
  }

  lemma ShorterSchedule(loan: Loan, terms: Terms, s: seq<Payment>) returns (init: seq<Payment>, x: Payment)
    requires s != [] && IsSchedule(loan, terms, s)
    ensures s == init + [x] && |init| < |s| && IsSchedule(loan, terms, init)
    ensures x.opening == OpeningOf(loan, init, |init|) && MonthIs(loan, terms, |init| + 1, x)
  {
    init, x := s[..|s| - 1], s[|s| - 1];
    forall k: nat | k < |init| ensures MonthAt(loan, terms, init, k) {
      assert MonthAt(loan, terms, s, k);
      SameMonth(loan, terms, init, s, k);
    }
    assert MonthAt(loan, terms, s, |init|);
  }

  lemma LastMonthFollows(loan: Loan, terms: Terms, init: seq<Payment>, x: Payment)
    requires loan.Valid() && RunsTo(loan, terms, init)
    requires x.opening == OpeningOf(loan, init, |init|) && MonthIs(loan, terms, |init| + 1, x)
    ensures RunsTo(loan, terms, init + [x])
  {
    ScheduleIsDescribed(loan, terms, |init|);
    AdvanceIs(loan, terms, |init|);
    var after := Run(loan, terms, |init| + 1).value.payments;
    OnePayment(loan, terms, |init| + 1, x, after[|init|]);
    assert after == after[..|init|] + [after[|init|]];
  }

  /** A list of payments is the calculated schedule exactly when every month of it is as described. */
  lemma ScheduleIff(loan: Loan, terms: Terms, months: nat, s: seq<Payment>)
    requires loan.Valid()
    ensures Schedule(loan, terms, months) == Success(s) <==> |s| == months && IsSchedule(loan, terms, s)
  {
    if Schedule(loan, terms, months) == Success(s) { ScheduleIsDescribed(loan, terms, months); }
    if |s| == months && IsSchedule(loan, terms, s) { DescribedIsSchedule(loan, terms, s); }
  }

  lemma MonthOfSchedule(loan: Loan, terms: Terms, months: nat, k: nat) returns (x: Payment)
    requires loan.Valid() && Schedule(loan, terms, months).Success? && k < months
    ensures x == Schedule(loan, terms, months).value[k]
    ensures MonthIs(loan, terms, k + 1, x) && x.opening == OpeningOf(loan, Schedule(loan, terms, months).value, k)
  {
    var s := Schedule(loan, terms, months).value;
    ScheduleIff(loan, terms, months, s);
    x := s[k];
    assert MonthAt(loan, terms, s, k);
  }
}
