/** Every schedule conserves the principal, and the month at which a contract is repaid. */
module LoanConservation {
  import opened Reals
  import opened Loan

  /** The sum 1 + (1 + r) + ... of `n` terms: the present debt that one unit a month repays. */
  function Series(r: real, n: nat): real {
    if n == 0 then 0.0 else 1.0 + (1.0 + r) * Series(r, n - 1)
  }

  lemma {:induction false} SeriesIsGeometric(r: real, n: nat)
    ensures r * Series(r, n) == Pow(1.0 + r, n) - 1.0
  {
    if n > 0 {
      SeriesIsGeometric(r, n - 1);
      var s, q := Series(r, n - 1), 1.0 + r;
      assert r * (q * s) == q * (r * s);
      assert q * Pow(q, n - 1) == Pow(q, n);
    }
  }

  lemma {:induction false} SeriesAtLeast(r: real, n: nat)
    requires r >= 0.0
    ensures Series(r, n) >= n as real
  {
    if n > 0 {
      SeriesAtLeast(r, n - 1);
      MulNonNegative(r, Series(r, n - 1));
    }
  }

  /** The monthly recomputation of the annuity asks for one share of the balance, and its clamp never binds. */
  lemma AnnuityIsShare(opening: real, r: real, n: nat)
    requires opening >= 0.0 && r >= 0.0 && n > 0
    ensures Series(r, n) >= 1.0
    ensures AnnuityPrincipal(opening, r, n) == opening / Series(r, n)
    ensures 0.0 <= AnnuityPrincipal(opening, r, n) <= opening
  {
    SeriesAtLeast(r, n);
    ShareBounds(opening, Series(r, n));
    if r == 0.0 {
      ZeroRateSeries(n);
    } else {
      PositiveAnnuityIsShare(opening, r, n);
    }
  }

  lemma PositiveAnnuityIsShare(opening: real, r: real, n: nat)
    requires r > 0.0 && n > 0 && Series(r, n) >= 1.0 && opening / Series(r, n) <= opening
    ensures AnnuityPrincipal(opening, r, n) == opening / Series(r, n)
  {
    PositiveRateShare(opening, r, n);
    UnclampedShare(opening, LevelPayment(opening, r, Pow(1.0 + r, n)), opening * r, opening / Series(r, n));
  }

  lemma UnclampedShare(opening: real, payment: real, interest: real, share: real)
    requires payment - interest == share <= opening
    ensures Min(opening, payment - interest) == share
  {
  }

  lemma PositiveRateShare(opening: real, r: real, n: nat)
    requires r > 0.0 && n > 0 && Series(r, n) >= 1.0
    ensures Pow(1.0 + r, n) > 1.0
    ensures LevelPayment(opening, r, Pow(1.0 + r, n)) - opening * r == opening / Series(r, n)
  {
    PowAboveOne(1.0 + r, n);
    SeriesIsGeometric(r, n);
    PaymentMinusInterest(opening, r, Series(r, n), Pow(1.0 + r, n));
  }

  lemma ShareBounds(x: real, s: real)
    requires x >= 0.0 && s >= 1.0
    ensures 0.0 <= x / s <= x
  {
    var y := x / s;
    assert y * s == x;
    if y < 0.0 { MulNonNegative(-y, s); }
    MulNonNegative(y, s - 1.0);
  }

  lemma {:induction false} ZeroRateSeries(n: nat)
    ensures Series(0.0, n) == n as real
  {
    if n > 0 { ZeroRateSeries(n - 1); }
  }

  lemma PaymentMinusInterest(opening: real, r: real, s: real, factor: real)
    requires r > 0.0 && s >= 1.0 && r * s == factor - 1.0 && factor > 1.0
    ensures LevelPayment(opening, r, factor) - opening * r == opening / s
  {
    var share := opening / s;
    var total := share + opening * r;
    assert share * s == opening;
    assert opening * r == share * (s * r) == share * (factor - 1.0);
    assert total == share * factor;
    assert total * (factor - 1.0) == opening * r * factor by {
      assert total * (factor - 1.0) == (share * (factor - 1.0)) * factor;
    }
    QuotientIs(opening * r * factor, factor - 1.0, total);
  }

  /** What one month does to the balance, whatever the contract. */
  ghost predicate MonthSound(before: real, x: Payment, after: real) {
    && x.opening == before
    && x.closing == after
    && 0.0 <= after <= before
    && x.principal == before - after
    && x.interest >= 0.0
  }

  lemma DueSound(loan: Loan, opening: real, r: real, period: nat)
    requires loan.Valid() && 0 < period <= loan.remainingMonths && r >= 0.0 && opening >= 0.0
    ensures Due(loan, opening, r, period).Success? ==>
      Due(loan, opening, r, period).value.principal >= 0.0 && Due(loan, opening, r, period).value.interest >= 0.0
  {
    MulNonNegative(opening, r);
    AnnuityIsShare(opening, r, loan.remainingMonths - period + 1);
    assert loan.principal / (loan.remainingMonths as real) >= 0.0;
  }

  lemma AdvanceSound(loan: Loan, terms: Terms, p: Progress)
    requires loan.Valid() && p.balance >= 0.0
    requires Advance(loan, terms, p).Success?
    ensures var q := Advance(loan, terms, p).value;
      && |q.payments| == |p.payments| + 1
      && q.payments[..|p.payments|] == p.payments
      && MonthSound(p.balance, q.payments[|p.payments|], q.balance)
  {
    var month := |p.payments| + 1;
    if p.balance > 0.0 && p.period + 1 <= loan.remainingMonths {
      DueSound(loan, p.balance, AppliedRate(loan, terms, month) / 12.0, p.period + 1);
    }
  }

  function PrincipalPaid(payments: seq<Payment>): real {
    if payments == [] then 0.0 else PrincipalPaid(payments[..|payments| - 1]) + payments[|payments| - 1].principal
  }

  /** Balance at the beginning of month `k + 1`, that is after the first `k` months. */
  function BalanceAfter(loan: Loan, payments: seq<Payment>, k: nat): real
    requires k <= |payments|
  {
    if k == 0 then loan.principal else payments[k - 1].closing
  }

  ghost predicate Chained(loan: Loan, payments: seq<Payment>) {
    forall k :: 0 <= k < |payments| ==> MonthSound(BalanceAfter(loan, payments, k), payments[k], payments[k].closing)
  }

  lemma {:induction false} ScheduleChained(loan: Loan, terms: Terms, months: nat)
    requires loan.Valid() && Run(loan, terms, months).Success?
    ensures var p := Run(loan, terms, months).value;
      && 0.0 <= p.balance <= loan.principal
      && p.balance == BalanceAfter(loan, p.payments, months)
      && Chained(loan, p.payments)
  {
    if months > 0 {
      var p := Run(loan, terms, months).value;
      ScheduleChained(loan, terms, months - 1);
      var before := Run(loan, terms, months - 1).value;
      AdvanceSound(loan, terms, before);
      assert before.payments == p.payments[..months - 1];
      forall k | 0 <= k < months
        ensures MonthSound(BalanceAfter(loan, p.payments, k), p.payments[k], p.payments[k].closing)
      {
        assert BalanceAfter(loan, p.payments, k) == BalanceAfter(loan, before.payments, k);
        if k < months - 1 {
          assert p.payments[k] == before.payments[k];
        }
      }
    }
  }

  lemma {:induction false} ChainConserves(loan: Loan, payments: seq<Payment>, k: nat)
    requires Chained(loan, payments) && k <= |payments|
    ensures PrincipalPaid(payments[..k]) + BalanceAfter(loan, payments, k) == loan.principal
  {
    if k > 0 {
      ChainConserves(loan, payments, k - 1);
      assert payments[..k][..k - 1] == payments[..k - 1];
      assert MonthSound(BalanceAfter(loan, payments, k - 1), payments[k - 1], payments[k - 1].closing);
    }
  }

  ghost predicate Conserves(loan: Loan, payments: seq<Payment>, k: nat)
    requires k < |payments|
  {
    && PrincipalPaid(payments[..k + 1]) + payments[k].closing == loan.principal
    && payments[k].opening == (if k == 0 then loan.principal else payments[k - 1].closing)
    && 0.0 <= payments[k].closing <= payments[k].opening
    && payments[k].principal >= 0.0
    && payments[k].interest >= 0.0
  }

  lemma ChainedConserves(loan: Loan, payments: seq<Payment>)
    requires Chained(loan, payments)
    ensures forall k :: 0 <= k < |payments| ==> Conserves(loan, payments, k)
  {
    forall k | 0 <= k < |payments| ensures Conserves(loan, payments, k) {
      ChainConserves(loan, payments, k + 1);
      assert MonthSound(BalanceAfter(loan, payments, k), payments[k], payments[k].closing);
    }
  }

  /** At every month the principal paid so far and the closing balance add up to the initial principal, the
      balances form one chain, no balance is negative or rises, and no interest is negative. */
  lemma ScheduleConservesPrincipal(loan: Loan, terms: Terms, months: nat)
    requires loan.Valid() && Schedule(loan, terms, months).Success?
    ensures forall k :: 0 <= k < months ==> Conserves(loan, Schedule(loan, terms, months).value, k)
  {
    ScheduleChained(loan, terms, months);
    ChainedConserves(loan, Run(loan, terms, months).value.payments);
  }

  /** Earlier months of a schedule do not depend on how far it is carried. */
  lemma {:induction false} RunPrefix(loan: Loan, terms: Terms, k: nat, months: nat)
    requires k <= months && Run(loan, terms, months).Success?
    ensures Run(loan, terms, k).Success?
    ensures Run(loan, terms, k).value.payments == Run(loan, terms, months).value.payments[..k]
  {
    if k < months {
      RunPrefix(loan, terms, k, months - 1);
    }
  }
}
