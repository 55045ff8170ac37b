/** A higher rate never lowers a balance or an interest payment in any month. */
module LoanMonotone {
  import opened Reals
  import opened Loan
  import opened LoanConservation
  import opened LoanRepayment
  import opened LoanAnnuity

  lemma {:induction false} SeriesMonotone(r: real, s: real, n: nat)
    requires 0.0 <= r <= s
    ensures 0.0 <= Series(r, n) <= Series(s, n)
  {
    if n > 0 {
      SeriesMonotone(r, s, n - 1);
      MulMonotone(1.0 + r, 1.0 + s, Series(r, n - 1), Series(s, n - 1));
    }
  }

  /** What an annuity month leaves grows with the balance and with the rate. */
  lemma RemainderMonotone(x: real, y: real, s: real, t: real)
    requires 0.0 <= x <= y && 1.0 <= s <= t
    ensures x - x / s <= y - y / t
  {
    var a, b := x / s, y / t;
    assert a * s == x && b * t == y;
    if b - a > y - x {
      // then b > a, although b * t - a * s == y - x < b - a
      assert b * t - a * s == b * (t - 1.0) - a * (s - 1.0) + (b - a);
      ShareBounds(x, s);
      MulMonotone(a, b, s - 1.0, t - 1.0);
    }
  }

  /** The two calculations differ only in the declared rate and in the change applied to it. */
  ghost predicate RaisesRate(a: Loan, ta: Terms, b: Loan, tb: Terms) {
    && a.Valid() && b.Valid()
    && b == a.(annualRate := b.annualRate) && a.annualRate <= b.annualRate
    && tb == ta.(rateDelta := tb.rateDelta) && ta.rateDelta <= tb.rateDelta
  }

  ghost predicate Ordered(a: Loan, p: Progress, q: Progress) {
    && p.period == q.period
    && 0.0 <= p.balance <= q.balance
    && (p.balance == 0.0 <==> q.balance == 0.0)
    && (a.repaymentType.Amortizing? || p.balance == q.balance)
    && |p.payments| == |q.payments|
    && forall k :: 0 <= k < |p.payments| ==>
         && p.payments[k].opening <= q.payments[k].opening
         && p.payments[k].interest <= q.payments[k].interest
         && p.payments[k].interest + p.payments[k].principal <= q.payments[k].interest + q.payments[k].principal
         && (a.repaymentType.Amortizing? || p.payments[k].principal == q.payments[k].principal)
  }

  lemma PositiveShare(x: real, s: real)
    requires x > 0.0 && s >= 1.0
    ensures x / s > 0.0
  {
    assert x / s * s == x;
    if x / s <= 0.0 { MulNonNegative(-(x / s), s); }
  }

  // ---------- the instalment of one unit of debt ----------

  function UnitInstalment(r: real, n: nat): real
    requires r >= 0.0 && n > 0
  {
    SeriesAtLeast(r, n);
    1.0 / Series(r, n) + r
  }

  lemma UnitStep(r: real, n: nat)
    requires r >= 0.0 && n >= 2
    ensures UnitInstalment(r, n - 1) > 0.0
    ensures UnitInstalment(r, n) * (UnitInstalment(r, n - 1) + 1.0) == (1.0 + r) * UnitInstalment(r, n - 1)
  {
    SeriesAtLeast(r, n - 1);
    SeriesAtLeast(r, n);
    PositiveShare(1.0, Series(r, n - 1));
    UnitStepOf(r, Series(r, n - 1), Series(r, n), UnitInstalment(r, n - 1), UnitInstalment(r, n));
  }

  lemma UnitStepOf(r: real, s: real, t: real, u: real, v: real)
    requires s >= 1.0 && t == 1.0 + (1.0 + r) * s && t >= 1.0
    requires u == 1.0 / s + r && v == 1.0 / t + r
    ensures v * (u + 1.0) == (1.0 + r) * u
  {
    var a, b := 1.0 / s, 1.0 / t;
    assert a * s == 1.0 && b * t == 1.0;
    assert u * s == 1.0 + r * s && v * t == 1.0 + r * t;
    assert (u + 1.0) * s == t;
    assert v * t == (1.0 + r) * (1.0 + r * s) == (1.0 + r) * (u * s);
    var x, y := v * (u + 1.0), (1.0 + r) * u;
    assert x * s == v * ((u + 1.0) * s) == v * t;
    assert y * s == (1.0 + r) * (u * s);
    CancelFactor(x, y, s);
  }

  lemma CancelFactor(x: real, y: real, s: real)
    requires s > 0.0 && x * s == y * s
    ensures x == y
  {
    assert (x - y) * s == 0.0;
  }

  lemma UnitRises(u: real, v: real, q: real, p: real, x: real, y: real)
    requires 0.0 < u <= v && 1.0 <= q <= p && x * (u + 1.0) == q * u && y * (v + 1.0) == p * v
    ensures x <= y
  {
    MulMonotone(q, p, u * v + u, u * v + v);
    var k := (u + 1.0) * (v + 1.0);
    assert k >= 1.0 by { MulNonNegative(u, v); }
    assert x * k == (x * (u + 1.0)) * (v + 1.0) == q * (u * v + u);
    assert y * k == (y * (v + 1.0)) * (u + 1.0) == p * (u * v + v);
    DivideThrough(x, y, k);
  }

  lemma DivideThrough(x: real, y: real, k: real)
    requires k >= 1.0 && x * k <= y * k
    ensures x <= y
  {
    if x > y { MulNonNegative(x - y, k - 1.0); }
  }

  /** The instalment per unit of debt grows with the rate. */
  lemma {:induction false} UnitInstalmentMonotone(r: real, s: real, n: nat)
    requires 0.0 <= r <= s && n > 0
    ensures 0.0 < UnitInstalment(r, n) <= UnitInstalment(s, n)
  {
    SeriesAtLeast(r, n);
    PositiveShare(1.0, Series(r, n));
    if n == 1 {
      OneTerm(r);
      OneTerm(s);
    } else {
      UnitInstalmentMonotone(r, s, n - 1);
      UnitStep(r, n);
      UnitStep(s, n);
      UnitRises(UnitInstalment(r, n - 1), UnitInstalment(s, n - 1), 1.0 + r, 1.0 + s, UnitInstalment(r, n), UnitInstalment(s, n));
    }
  }

  lemma OneTerm(r: real)
    requires r >= 0.0
    ensures UnitInstalment(r, 1) == 1.0 + r
  {
    assert Series(r, 1) == 1.0 + (1.0 + r) * Series(r, 0) == 1.0;
  }

  /** Principal and interest of an annuity month. */
  function MonthlyDue(x: real, r: real, n: nat): real
    requires r >= 0.0 && n > 0
  {
    AnnuityPrincipal(x, r, n) + Times(x, r)
  }

  lemma MonthlyDueIsUnits(x: real, r: real, n: nat)
    requires x >= 0.0 && r >= 0.0 && n > 0
    ensures MonthlyDue(x, r, n) == Times(x, UnitInstalment(r, n))
  {
    AnnuityIsShare(x, r, n);
    UnitTimes(x, r, n);
  }

  /** Principal and interest of an annuity month grow with the balance and with the rate. */
  lemma MonthlyDueOrdered(x: real, y: real, r: real, s: real, n: nat)
    requires 0.0 < x <= y && 0.0 <= r <= s && n > 0
    ensures MonthlyDue(x, r, n) <= MonthlyDue(y, s, n)
  {
    MonthlyDueIsUnits(x, r, n);
    MonthlyDueIsUnits(y, s, n);
    UnitInstalmentMonotone(r, s, n);
    TimesMonotone(x, y, UnitInstalment(r, n), UnitInstalment(s, n));
  }

  lemma UnitTimes(x: real, r: real, n: nat)
    requires r >= 0.0 && n > 0
    ensures Series(r, n) >= 1.0
    ensures x / Series(r, n) + x * r == x * UnitInstalment(r, n)
  {
    SeriesAtLeast(r, n);
    var s := Series(r, n);
    var a := 1.0 / s;
    assert a * s == 1.0;
    assert (x * a) * s == x;
    QuotientIs(x, s, x * a);
  }

  /** The remainder of an ungraced annuity month. */
  lemma AnnuityRemainder(balance: real, r: real, n: nat)
    requires balance > 0.0 && r >= 0.0 && n >= 2
    ensures Series(r, n) >= 1.0
    ensures balance - AnnuityPrincipal(balance, r, n) == balance - balance / Series(r, n) > 0.0
  {
    AnnuityIsShare(balance, r, n);
    SeriesAtLeast(r, n);
    ProperShare(balance, Series(r, n));
  }

  lemma ProperShare(x: real, s: real)
    requires x > 0.0 && s >= 2.0
    ensures x / s < x
  {
    var y := x / s;
    assert y * s == x;
    if y >= x { MulMonotone(x, y, 2.0, s); }
  }

  /** What an annuity still owes after the payment of an active period. */
  function AnnuityRest(balance: real, r: real, n: nat): real
    requires r >= 0.0 && n > 0
  {
    balance - if n == 1 then balance else AnnuityPrincipal(balance, r, n)
  }

  lemma AnnuityRestOrdered(x: real, y: real, r: real, s: real, n: nat)
    requires 0.0 < x <= y && 0.0 <= r <= s && n > 0
    ensures 0.0 <= AnnuityRest(x, r, n) <= AnnuityRest(y, s, n)
    ensures AnnuityRest(x, r, n) == 0.0 <==> AnnuityRest(y, s, n) == 0.0
  {
    if n > 1 {
      AnnuityRemainder(x, r, n);
      AnnuityRemainder(y, s, n);
      SeriesMonotone(r, s, n);
      RemainderMonotone(x, y, Series(r, n), Series(s, n));
    }
  }

  ghost predicate DuesOrdered(a: Loan, x: real, y: real, d: CustomPayment, e: CustomPayment) {
    && 0.0 <= d.interest <= e.interest && d.principal >= 0.0 && e.principal >= 0.0
    && d.interest + d.principal <= e.interest + e.principal
    && if a.repaymentType.Amortizing?
       then 0.0 <= x - d.principal <= y - e.principal && (x == d.principal <==> y == e.principal)
       else d.principal == e.principal
  }

  lemma DueOrdered(a: Loan, b: Loan, x: real, y: real, r: real, s: real, period: nat)
    requires a.Valid() && b.Valid() && b == a.(annualRate := b.annualRate)
    requires 0.0 < x <= y && 0.0 <= r <= s && 0 < period <= a.remainingMonths
    requires a.repaymentType.Amortizing? || x == y
    ensures var d, e := Due(a, x, r, period), Due(b, y, s, period);
      && (d.Failure? ==> e == d)
      && (d.Success? ==> e.Success? && DuesOrdered(a, x, y, d.value, e.value))
  {
    MulMonotone(x, y, r, s);
    DueSound(a, x, r, period);
    DueSound(b, y, s, period);
    if a.repaymentType.Amortizing? { AnnuityDuesOrdered(a, b, x, y, r, s, period); }
  }

  lemma AnnuityDuesOrdered(a: Loan, b: Loan, x: real, y: real, r: real, s: real, period: nat)
    requires a.Valid() && b.Valid() && b == a.(annualRate := b.annualRate) && a.repaymentType.Amortizing?
    requires 0.0 < x <= y && 0.0 <= r <= s && 0 < period <= a.remainingMonths
    ensures Due(a, x, r, period).Success? && Due(b, y, s, period).Success?
    ensures DuesOrdered(a, x, y, Due(a, x, r, period).value, Due(b, y, s, period).value)
  {
    var n := a.remainingMonths - period + 1;
    MulMonotone(x, y, r, s);
    AnnuityIsDue(a, x, r, period);
    AnnuityIsDue(b, y, s, period);
    AnnuityRestOrdered(x, y, r, s, n);
    MonthlyDueOrdered(x, y, r, s, n);
  }

  lemma AnnuityIsDue(a: Loan, x: real, r: real, period: nat)
    requires a.repaymentType.Amortizing? && 0.0 < x && 0.0 <= r && 0 < period <= a.remainingMonths
    ensures var d, n := Due(a, x, r, period), a.remainingMonths - period + 1;
      && d.Success? && 0.0 <= d.value.principal <= x && d.value.interest == x * r
      && d.value.principal + d.value.interest == MonthlyDue(x, r, n)
      && x - d.value.principal == AnnuityRest(x, r, n)
  {
    AnnuityDue(a, x, r, period);
    ClampAndOverwriteIdle(x, r, a.remainingMonths - period + 1);
  }

  lemma AdvanceOrdered(a: Loan, ta: Terms, b: Loan, tb: Terms, p: Progress, q: Progress)
    requires RaisesRate(a, ta, b, tb) && Ordered(a, p, q)
    ensures var u, v := Advance(a, ta, p), Advance(b, tb, q);
      && (u.Failure? ==> v == u)
      && (u.Success? ==> v.Success? && Ordered(a, u.value, v.value))
  {
    var month := |p.payments| + 1;
    var r, s := AppliedRate(a, ta, month), AppliedRate(b, tb, month);
    assert r <= s;
    if p.balance > 0.0 && !BeforeFirstPayment(a, ta, month) && p.period + 1 <= a.remainingMonths {
      DueOrdered(a, b, p.balance, q.balance, r / 12.0, s / 12.0, p.period + 1);
    }
  }

  /** Raising the rate: the dearer schedule fails exactly when the cheaper one does, and month by month its
      opening balance and its interest are at least as large. Contracts that are not annuities pay the same
      principal under both rates. */
  lemma {:induction false} RaisingRateRaisesSchedule(a: Loan, ta: Terms, b: Loan, tb: Terms, months: nat)
    requires RaisesRate(a, ta, b, tb)
    ensures var u, v := Run(a, ta, months), Run(b, tb, months);
      && (u.Failure? ==> v == u)
      && (u.Success? ==> v.Success? && Ordered(a, u.value, v.value))
  {
    if months > 0 {
      RaisingRateRaisesSchedule(a, ta, b, tb, months - 1);
      if Run(a, ta, months - 1).Success? {
        AdvanceOrdered(a, ta, b, tb, Run(a, ta, months - 1).value, Run(b, tb, months - 1).value);
      }
    }
  }

  lemma {:induction false} SeriesStrict(r: real, s: real, n: nat)
    requires 0.0 <= r < s && n >= 2
    ensures Series(r, n) < Series(s, n)
  {
    SeriesMonotone(r, s, n - 1);
    SeriesAtLeast(s, n - 1);
    MulMonotone(1.0 + r, 1.0 + r, Series(r, n - 1), Series(s, n - 1));
    var t := Series(s, n - 1);
    assert (s - r) * t > 0.0;
    assert (1.0 + s) * t == (1.0 + r) * t + (s - r) * t;
  }

  lemma RemainderStrict(x: real, y: real, s: real, t: real)
    requires 0.0 < x <= y && 1.0 <= s < t
    ensures x - x / s < y - y / t
  {
    RemainderMonotone(x, y, s, s);
    var a, b := y / s, y / t;
    assert a * s == y && b * t == y;
    if b >= a {
      assert b * (t - s) > 0.0;
      MulMonotone(a, b, s, s);
    }
  }

  lemma RemainderGrows(x: real, y: real, s: real)
    requires 0.0 < x < y && s >= 2.0
    ensures x - x / s < y - y / s
  {
    var a, b := x / s, y / s;
    assert a * s == x && b * s == y;
    if b - a >= y - x { MulNonNegative(b - a - (y - x), s); MulNonNegative(y - x, s - 2.0); }
  }

  /** What an annuity month leaves, when it may be graced. */
  function MonthRest(balance: real, r: real, n: nat, graced: bool): real
    requires r >= 0.0 && n > 0
  {
    if graced then balance else balance - AnnuityPrincipal(balance, r, n)
  }

  /** One month of two annuities: the second owes strictly more afterwards exactly when it did before, or when only it
      is graced, or when both pay and its rate is higher. */
  lemma MonthRestOrdered(x: real, y: real, r: real, s: real, n: nat, g: bool, h: bool)
    requires 0.0 < x <= y && 0.0 <= r <= s && n >= 2 && (g ==> h)
    ensures 0.0 < MonthRest(x, r, n, g) <= MonthRest(y, s, n, h)
    ensures MonthRest(x, r, n, g) < MonthRest(y, s, n, h) <==> x < y || (!g && (h || r < s))
  {
    AnnuityRemainder(x, r, n);
    AnnuityRemainder(y, s, n);
    AnnuityIsShare(x, r, n);
    AnnuityIsShare(y, s, n);
    SeriesAtLeast(r, n);
    ShareBounds(x, Series(r, n));
    if !h {
      SeriesMonotone(r, s, n);
      RemainderMonotone(x, y, Series(r, n), Series(s, n));
      if r < s {
        SeriesStrict(r, s, n);
        RemainderStrict(x, y, Series(r, n), Series(s, n));
      } else if x < y {
        RemainderGrows(x, y, Series(r, n));
      }
    } else if !g {
      PositiveShare(x, Series(r, n));
    }
  }

  /** The second calculation has a higher or equal rate, and at least as many months of grace. */
  ghost predicate Dearer(a: Loan, ta: Terms, b: Loan, tb: Terms) {
    && a.Valid() && b.Valid()
    && b == a.(annualRate := b.annualRate) && a.annualRate <= b.annualRate
    && tb == ta.(rateDelta := tb.rateDelta, graceMonths := tb.graceMonths)
    && ta.rateDelta <= tb.rateDelta && ta.graceMonths <= tb.graceMonths
  }

  /** A period in which only the first loan pays, or both pay and the second one's rate is higher. */
  predicate Deviates(a: Loan, ta: Terms, b: Loan, tb: Terms, i: nat) {
    var month := Offset(a, ta) + i;
    !Graced(a, ta, i) && (Graced(b, tb, i) || AppliedRate(a, ta, month) < AppliedRate(b, tb, month))
  }

  ghost predicate DeviatesBy(a: Loan, ta: Terms, b: Loan, tb: Terms, j: nat) {
    exists i: nat :: 1 <= i <= j && Deviates(a, ta, b, tb, i)
  }

  lemma DearerFacts(a: Loan, ta: Terms, b: Loan, tb: Terms, j: nat)
    requires Dearer(a, ta, b, tb)
    ensures Offset(b, tb) == Offset(a, ta)
    ensures Graced(a, ta, j) ==> Graced(b, tb, j)
    ensures AppliedRate(a, ta, Offset(a, ta) + j) <= AppliedRate(b, tb, Offset(a, ta) + j)
  {
  }

  /** The balance that an annuity owes after its `j`-th active period. */
  function OwedAfter(loan: Loan, terms: Terms, j: nat): real {
    match Run(loan, terms, Offset(loan, terms) + j)
    case Success(p) => p.balance
    case Failure(_) => 0.0
  }

  lemma AnnuityStep(loan: Loan, terms: Terms, j: nat)
    requires loan.Valid() && loan.repaymentType.Amortizing? && loan.principal > 0.0 && 1 <= j < loan.remainingMonths
    ensures OwedAfter(loan, terms, j - 1) > 0.0
    ensures OwedAfter(loan, terms, j) ==
      MonthRest(OwedAfter(loan, terms, j - 1), AppliedRate(loan, terms, Offset(loan, terms) + j) / 12.0,
                loan.remainingMonths - j + 1, Graced(loan, terms, j))
  {
    AmortizingBalance(loan, terms, j - 1);
    ActiveMonth(loan, terms, j);
    AnnuityDue(loan, OwedAfter(loan, terms, j - 1), AppliedRate(loan, terms, Offset(loan, terms) + j) / 12.0, j);
  }

  /** Raising the rate or the grace of an annuity never lowers what it owes, and before its last period raises it
      exactly when some period so far deviates. */
  lemma {:induction false} DearerAnnuityOwesMoreIff(a: Loan, ta: Terms, b: Loan, tb: Terms, j: nat)
    requires Dearer(a, ta, b, tb) && a.repaymentType.Amortizing? && a.principal > 0.0 && j < a.remainingMonths
    ensures 0.0 < OwedAfter(a, ta, j) <= OwedAfter(b, tb, j)
    ensures OwedAfter(a, ta, j) < OwedAfter(b, tb, j) <==> DeviatesBy(a, ta, b, tb, j)
  {
    DearerFacts(a, ta, b, tb, j);
    if j == 0 {
      NotYetDue(a, ta, Offset(a, ta));
      NotYetDue(b, tb, Offset(a, ta));
    } else {
      DearerAnnuityOwesMoreIff(a, ta, b, tb, j - 1);
      AnnuityStep(a, ta, j);
      AnnuityStep(b, tb, j);
      DeviatesNext(a, ta, b, tb, j);
      var month := Offset(a, ta) + j;
      MonthRestOrdered(OwedAfter(a, ta, j - 1), OwedAfter(b, tb, j - 1), AppliedRate(a, ta, month) / 12.0,
                       AppliedRate(b, tb, month) / 12.0, a.remainingMonths - j + 1, Graced(a, ta, j), Graced(b, tb, j));
    }
  }

  lemma DeviatesNext(a: Loan, ta: Terms, b: Loan, tb: Terms, j: nat)
    requires j >= 1
    ensures DeviatesBy(a, ta, b, tb, j) <==> DeviatesBy(a, ta, b, tb, j - 1) || Deviates(a, ta, b, tb, j)
  {
  }
}
