/** An amortizing loan at a constant rate pays the same instalment every month, although each month recomputes it. */
module LoanAnnuity {
  import opened Wrappers
  import opened Reals
  import opened Loan
  import opened LoanConservation
  import opened LoanRepayment

  /** Principal share plus interest of a balance with `n` periods left. */
  function Instalment(balance: real, r: real, n: nat): real
    requires Series(r, n) != 0.0
  {
    balance / Series(r, n) + balance * r
  }

  /** At a positive rate the instalment is the annuity P * r * q^n / (q^n - 1) with q = 1 + r. */
  lemma InstalmentIsAnnuity(balance: real, r: real, n: nat)
    requires balance >= 0.0 && r > 0.0 && n > 0
    ensures Series(r, n) >= 1.0 && Pow(1.0 + r, n) > 1.0
    ensures Instalment(balance, r, n) == LevelPayment(balance, r, Pow(1.0 + r, n))
  {
    AnnuityIsShare(balance, r, n);
    PositiveRateShare(balance, r, n);
  }

  /** The `min` with the balance never binds, and the last-period overwrite replaces the principal by itself. */
  lemma ClampAndOverwriteIdle(balance: real, r: real, n: nat)
    requires balance >= 0.0 && r >= 0.0 && n > 0
    ensures r > 0.0 ==> Pow(1.0 + r, n) > 1.0 && LevelPayment(balance, r, Pow(1.0 + r, n)) - balance * r <= balance
    ensures AnnuityPrincipal(balance, r, 1) == balance
  {
    AnnuityIsShare(balance, r, n);
    AnnuityIsShare(balance, r, 1);
    assert Series(r, 1) == 1.0 + (1.0 + r) * Series(r, 0) == 1.0;
    QuotientIs(balance, 1.0, balance);
    if r > 0.0 {
      PositiveRateShare(balance, r, n);
      ShareBounds(balance, Series(r, n));
    }
  }

  lemma InstalmentCarries(balance: real, r: real, s: real, t: real)
    requires r >= 0.0 && s >= 1.0 && t == 1.0 + (1.0 + r) * s && t >= 1.0
    ensures var rest := balance - balance / t; rest / s + rest * r == balance / t + balance * r
  {
    var y := balance / t;
    var rest := balance - y;
    assert y * t == balance;
    var z := y * (1.0 + r);
    assert rest == z * s by {
      assert y * t == y + y * ((1.0 + r) * s);
      assert y * ((1.0 + r) * s) == z * s;
    }
    QuotientIs(rest, s, z);
    assert rest * r == balance * r - y * r;
  }

  ghost predicate ConstantRate(loan: Loan, terms: Terms, rate: real) {
    forall month :: 0 < month - Offset(loan, terms) <= loan.remainingMonths ==> AppliedRate(loan, terms, month) == rate
  }

  ghost predicate NoGrace(loan: Loan, terms: Terms) {
    forall j :: 1 <= j <= loan.remainingMonths ==> !Graced(loan, terms, j)
  }

  ghost predicate AnnuityPayment(balance: real, r: real, n: nat, x: Payment)
    requires r >= 0.0 && n > 0
  {
    && x.interest == balance * r
    && x.principal == AnnuityPrincipal(balance, r, n)
    && x.closing == balance - x.principal
  }

  /** One ungraced month of an annuity. */
  lemma AnnuityMonth(loan: Loan, terms: Terms, r: real, j: nat)
    requires loan.Valid() && loan.repaymentType.Amortizing? && 1 <= j <= loan.remainingMonths
    requires !Graced(loan, terms, j) && r >= 0.0 && AppliedRate(loan, terms, Offset(loan, terms) + j) / 12.0 == r
    requires var p := Run(loan, terms, Offset(loan, terms) + j - 1); p.Success? && p.value.balance > 0.0
    ensures var month := Offset(loan, terms) + j;
      && Run(loan, terms, month).Success?
      && var x := Run(loan, terms, month).value.payments[month - 1];
      && AnnuityPayment(Run(loan, terms, month - 1).value.balance, r, loan.remainingMonths - j + 1, x)
      && Run(loan, terms, month).value.balance == x.closing
  {
    AnnuityDue(loan, Run(loan, terms, Offset(loan, terms) + j - 1).value.balance, r, j);
    ActiveMonth(loan, terms, j);
  }

  lemma AnnuityDue(loan: Loan, balance: real, r: real, j: nat)
    requires loan.repaymentType.Amortizing? && 1 <= j <= loan.remainingMonths && balance >= 0.0 && r >= 0.0
    ensures 0.0 <= AnnuityPrincipal(balance, r, loan.remainingMonths - j + 1) <= balance
    ensures Due(loan, balance, r, j) ==
      Success(CustomPayment(AnnuityPrincipal(balance, r, loan.remainingMonths - j + 1), balance * r))
  {
    var n := loan.remainingMonths - j + 1;
    AnnuityIsShare(balance, r, n);
    ClampAndOverwriteIdle(balance, r, n);
    var due := Due(loan, balance, r, j).value;
    assert due.principal == AnnuityPrincipal(balance, r, n) by {
      if n == 1 { assert due.principal == balance; }
    }
    assert due.interest == balance * r by {
      if r == 0.0 { assert balance * r == 0.0; }
    }
  }

  /** The instalment that the balance after month `months` calls for, with `n` periods left. */
  ghost predicate CallsFor(loan: Loan, terms: Terms, months: nat, r: real, n: nat, instalment: real) {
    && Run(loan, terms, months).Success?
    && Run(loan, terms, months).value.balance > 0.0
    && Series(r, n) >= 1.0
    && Instalment(Run(loan, terms, months).value.balance, r, n) == instalment
  }

  lemma InstalmentStep(balance: real, r: real, n: nat, instalment: real)
    requires balance > 0.0 && r >= 0.0 && n >= 2
    requires Series(r, n) >= 1.0 && Instalment(balance, r, n) == instalment
    ensures Series(r, n - 1) >= 1.0
    ensures Instalment(balance - AnnuityPrincipal(balance, r, n), r, n - 1) == instalment
  {
    AnnuityIsShare(balance, r, n);
    SeriesAtLeast(r, n - 1);
    InstalmentCarries(balance, r, Series(r, n - 1), Series(r, n));
  }

  /** The balance before each period still calls for the first instalment. */
  lemma {:induction false} InstalmentInvariant(loan: Loan, terms: Terms, rate: real, j: nat)
    requires loan.Valid() && loan.principal > 0.0 && loan.repaymentType.Amortizing?
    requires rate >= 0.0 && ConstantRate(loan, terms, rate) && NoGrace(loan, terms)
    requires j < loan.remainingMonths
    ensures Series(rate / 12.0, loan.remainingMonths) >= 1.0
    ensures CallsFor(loan, terms, Offset(loan, terms) + j, rate / 12.0, loan.remainingMonths - j,
                     Instalment(loan.principal, rate / 12.0, loan.remainingMonths))
  {
    var r, n := rate / 12.0, loan.remainingMonths;
    SeriesAtLeast(r, n);
    if j == 0 {
      NotYetDue(loan, terms, Offset(loan, terms));
    } else {
      InstalmentInvariant(loan, terms, rate, j - 1);
      AnnuityMonth(loan, terms, r, j);
      AmortizingBalance(loan, terms, j);
      InstalmentStep(Run(loan, terms, Offset(loan, terms) + j - 1).value.balance, r, n - j + 1, Instalment(loan.principal, r, n));
    }
  }

  function Paid(x: Payment): real { x.interest + x.principal }

  lemma PaysInstalment(balance: real, r: real, n: nat, x: Payment)
    requires balance >= 0.0 && r >= 0.0 && n > 0 && AnnuityPayment(balance, r, n, x)
    ensures Series(r, n) >= 1.0 && Paid(x) == Instalment(balance, r, n)
  {
    AnnuityIsShare(balance, r, n);
  }

  lemma LevelInActiveMonth(loan: Loan, terms: Terms, rate: real, j: nat, instalment: real)
    requires loan.Valid() && loan.principal > 0.0 && loan.repaymentType.Amortizing?
    requires rate >= 0.0 && ConstantRate(loan, terms, rate) && NoGrace(loan, terms)
    requires 1 <= j <= loan.remainingMonths
    requires Series(rate / 12.0, loan.remainingMonths) >= 1.0
    requires instalment == Instalment(loan.principal, rate / 12.0, loan.remainingMonths)
    ensures var p := Run(loan, terms, Offset(loan, terms) + j);
      p.Success? && Paid(p.value.payments[Offset(loan, terms) + j - 1]) == instalment
  {
    InstalmentInvariant(loan, terms, rate, j - 1);
    AnnuityMonth(loan, terms, rate / 12.0, j);
    var month := Offset(loan, terms) + j;
    PaysInstalment(Run(loan, terms, month - 1).value.balance, rate / 12.0, loan.remainingMonths - j + 1,
                   Run(loan, terms, month).value.payments[month - 1]);
  }

  /** Every active month of the loan pays interest plus principal equal to the one instalment of the whole loan. */
  lemma AmortizingPaysLevelInstalment(loan: Loan, terms: Terms, rate: real, months: nat, j: nat)
    requires loan.Valid() && loan.principal > 0.0 && loan.repaymentType.Amortizing?
    requires rate >= 0.0 && ConstantRate(loan, terms, rate) && NoGrace(loan, terms)
    requires 1 <= j <= loan.remainingMonths && Offset(loan, terms) + j <= months
    ensures Series(rate / 12.0, loan.remainingMonths) >= 1.0
    ensures Schedule(loan, terms, months).Success?
    ensures Paid(Schedule(loan, terms, months).value[Offset(loan, terms) + j - 1])
      == Instalment(loan.principal, rate / 12.0, loan.remainingMonths)
  {
    SeriesAtLeast(rate / 12.0, loan.remainingMonths);
    LevelInActiveMonth(loan, terms, rate, j, Instalment(loan.principal, rate / 12.0, loan.remainingMonths));
    RunSucceeds(loan, terms, months);
    RunPrefix(loan, terms, Offset(loan, terms) + j, months);
  }
}
