/** What a scenario collects from a loan when every month picks its own rate schedule. */
module ScenarioPrincipal {
  import opened Wrappers
  import opened Loan
  import opened LoanConservation
  import opened LoanRepayment
  import opened LoanMonotone
  import opened Scenario

  /** Balance after `k` months in the schedule for rate change `delta`. */
  function BalanceAt(loan: Loan, terms: Terms, months: nat, delta: real, k: nat): real
    requires k <= months
  {
    match Schedule(loan, terms.(rateDelta := delta), months)
    case Success(schedule) => BalanceAfter(loan, schedule, k)
    case Failure(_) => 0.0
  }

  function PrincipalAt(loan: Loan, terms: Terms, months: nat, delta: real, k: nat): real
    requires k < months
  {
    match Schedule(loan, terms.(rateDelta := delta), months)
    case Success(schedule) => schedule[k].principal
    case Failure(_) => 0.0
  }

  /** Principal collected in the first `k` months when month `i` uses the schedule for `deltas[i]`. */
  function Collected(loan: Loan, terms: Terms, deltas: seq<real>, k: nat): real
    requires k <= |deltas|
  {
    if k == 0 then 0.0 else Collected(loan, terms, deltas, k - 1) + PrincipalAt(loan, terms, |deltas|, deltas[k - 1], k - 1)
  }

  /** The jumps between balances where a month switches from one schedule to another. */
  function Drift(loan: Loan, terms: Terms, deltas: seq<real>, k: nat): real
    requires k <= |deltas|
  {
    if k <= 1 then 0.0
    else Drift(loan, terms, deltas, k - 1) + Jump(loan, terms, deltas, k - 1)
  }

  function Jump(loan: Loan, terms: Terms, deltas: seq<real>, j: nat): real
    requires 0 < j < |deltas|
  {
    BalanceAt(loan, terms, |deltas|, deltas[j], j) - BalanceAt(loan, terms, |deltas|, deltas[j - 1], j)
  }

  lemma PrincipalIsFall(loan: Loan, terms: Terms, months: nat, delta: real, k: nat)
    requires loan.Valid() && k < months && Schedule(loan, terms, months).Success?
    ensures PrincipalAt(loan, terms, months, delta, k)
      == BalanceAt(loan, terms, months, delta, k) - BalanceAt(loan, terms, months, delta, k + 1)
    ensures BalanceAt(loan, terms, months, delta, 0) == loan.principal
  {
    var other := terms.(rateDelta := delta);
    ScheduleFailureIgnoresRate(loan, other, terms, months);
    ScheduleChained(loan, other, months);
    var payments := Schedule(loan, other, months).value;
    assert MonthSound(BalanceAfter(loan, payments, k), payments[k], payments[k].closing);
  }

  /** Whatever is collected plus the open balance of the schedule in use is the principal plus the drift. */
  lemma {:induction false} CollectedIsPrincipalPlusDrift(loan: Loan, terms: Terms, deltas: seq<real>, k: nat)
    requires loan.Valid() && Schedule(loan, terms, |deltas|).Success? && 0 < k <= |deltas|
    ensures Collected(loan, terms, deltas, k) + BalanceAt(loan, terms, |deltas|, deltas[k - 1], k)
      == loan.principal + Drift(loan, terms, deltas, k)
  {
    PrincipalIsFall(loan, terms, |deltas|, deltas[k - 1], k - 1);
    if k > 1 {
      CollectedIsPrincipalPlusDrift(loan, terms, deltas, k - 1);
    } else {
      assert Collected(loan, terms, deltas, 0) == 0.0;
    }
  }

  /** A larger rate change never lowers a balance; for a fixed rate, or for a contract that is not an annuity, the
      rate change does not move the balance at all. */
  lemma BalanceAtOrdered(loan: Loan, terms: Terms, months: nat, d: real, e: real, k: nat)
    requires loan.Valid() && Schedule(loan, terms, months).Success? && k <= months && d <= e
    ensures BalanceAt(loan, terms, months, d, k) <= BalanceAt(loan, terms, months, e, k)
    ensures loan.rateType.Fixed? || !loan.repaymentType.Amortizing? ==>
      BalanceAt(loan, terms, months, d, k) == BalanceAt(loan, terms, months, e, k)
  {
    var td, te := terms.(rateDelta := d), terms.(rateDelta := e);
    ScheduleFailureIgnoresRate(loan, td, terms, months);
    ScheduleFailureIgnoresRate(loan, te, terms, months);
    RunPrefix(loan, td, k, months);
    RunPrefix(loan, te, k, months);
    RaisingRateRaisesSchedule(loan, td, loan, te, k);
    ScheduleChained(loan, td, k);
    ScheduleChained(loan, te, k);
    if loan.rateType.Fixed? {
      FixedRateIgnoresDelta(loan, td, te, k);
    }
  }

  lemma {:induction false} FixedRateIgnoresDelta(loan: Loan, terms: Terms, other: Terms, months: nat)
    requires loan.rateType.Fixed? && other == terms.(rateDelta := other.rateDelta)
    ensures Run(loan, other, months) == Run(loan, terms, months)
  {
    if months > 0 {
      FixedRateIgnoresDelta(loan, terms, other, months - 1);
      if Run(loan, terms, months - 1).Success? {
        FixedRateAdvance(loan, terms, other, Run(loan, terms, months - 1).value);
      }
    }
  }

  lemma FixedRateAdvance(loan: Loan, terms: Terms, other: Terms, p: Progress)
    requires loan.rateType.Fixed? && other == terms.(rateDelta := other.rateDelta)
    ensures Advance(loan, other, p) == Advance(loan, terms, p)
  {
    var month := |p.payments| + 1;
    assert AppliedRate(loan, other, month) == AppliedRate(loan, terms, month);
    assert BeforeFirstPayment(loan, other, month) == BeforeFirstPayment(loan, terms, month);
    assert InGrace(loan, other, month, p.period + 1) == InGrace(loan, terms, month, p.period + 1);
  }

  ghost predicate PrincipalIgnoresRate(loan: Loan) {
    loan.rateType.Fixed? || !loan.repaymentType.Amortizing?
  }

  lemma {:induction false} DriftSign(loan: Loan, terms: Terms, deltas: seq<real>, k: nat)
    requires loan.Valid() && Schedule(loan, terms, |deltas|).Success? && k <= |deltas|
    ensures PrincipalIgnoresRate(loan) ==> Drift(loan, terms, deltas, k) == 0.0
    ensures (forall i, j :: 0 <= i < j < k ==> deltas[i] <= deltas[j]) ==> Drift(loan, terms, deltas, k) >= 0.0
    ensures (forall i, j :: 0 <= i < j < k ==> deltas[i] <= deltas[j]) ==>
      (Drift(loan, terms, deltas, k) == 0.0 <==> forall j :: 0 < j < k ==> Jump(loan, terms, deltas, j) == 0.0)
  {
    if k > 1 {
      DriftSign(loan, terms, deltas, k - 1);
      var d, e := deltas[k - 2], deltas[k - 1];
      if d <= e {
        BalanceAtOrdered(loan, terms, |deltas|, d, e, k - 1);
      } else {
        BalanceAtOrdered(loan, terms, |deltas|, e, d, k - 1);
      }
    }
  }

  /** Switching schedules month by month still conserves the principal of every loan whose principal does not
      depend on the rate. With rate changes that never fall, any loan collects at least its principal, and exactly
      its principal only if no switch meets two different balances. */
  lemma SwitchingSchedulesConserves(loan: Loan, terms: Terms, deltas: seq<real>, k: nat)
    requires loan.Valid() && Schedule(loan, terms, |deltas|).Success? && 0 < k <= |deltas|
    ensures var total := Collected(loan, terms, deltas, k) + BalanceAt(loan, terms, |deltas|, deltas[k - 1], k);
      && (PrincipalIgnoresRate(loan) ==> total == loan.principal)
      && ((forall i, j :: 0 <= i < j < k ==> deltas[i] <= deltas[j]) ==>
            && total >= loan.principal
            && (total == loan.principal <==> forall j :: 0 < j < k ==> Jump(loan, terms, deltas, j) == 0.0))
  {
    CollectedIsPrincipalPlusDrift(loan, terms, deltas, k);
    DriftSign(loan, terms, deltas, k);
  }

  /** Whether two rate changes give different rates in a period that pays. */
  predicate RatesDiffer(loan: Loan, terms: Terms, d: real, e: real, i: nat) {
    var month := Offset(loan, terms) + i;
    && !Graced(loan, terms, i)
    && AppliedRate(loan, terms.(rateDelta := d), month) != AppliedRate(loan, terms.(rateDelta := e), month)
  }

  /** Whether a switch between two rate changes after `j` months meets two different balances: only an annuity that is
      still open, and that has paid at different rates before. */
  ghost predicate SwitchShows(loan: Loan, terms: Terms, d: real, e: real, j: nat) {
    var periods := j - Offset(loan, terms);
    && loan.repaymentType.Amortizing? && loan.principal > 0.0
    && (periods < loan.remainingMonths || Graced(loan, terms, loan.remainingMonths))
    && exists i: nat :: 1 <= i <= periods && i <= loan.remainingMonths && RatesDiffer(loan, terms, d, e, i)
  }

  lemma BalanceIsRun(loan: Loan, terms: Terms, months: nat, delta: real, k: nat)
    requires loan.Valid() && !loan.repaymentType.CustomSchedule? && k <= months
    ensures var t := terms.(rateDelta := delta);
      Run(loan, t, k).Success? && BalanceAt(loan, terms, months, delta, k) == Run(loan, t, k).value.balance
  {
    var t := terms.(rateDelta := delta);
    RunSucceeds(loan, t, months);
    RunPrefix(loan, t, k, months);
    ScheduleChained(loan, t, k);
  }

  /** What an annuity owes after `j` months, period by period. */
  lemma AnnuityBalanceAt(loan: Loan, terms: Terms, months: nat, delta: real, j: nat)
    requires loan.Valid() && loan.repaymentType.Amortizing? && loan.principal > 0.0 && j <= months
    ensures var t, n, periods := terms.(rateDelta := delta), loan.remainingMonths, j - Offset(loan, terms);
      BalanceAt(loan, terms, months, delta, j) ==
        if periods <= 0 then loan.principal
        else if periods < n then OwedAfter(loan, t, periods)
        else if Graced(loan, terms, n) then OwedAfter(loan, t, n - 1)
        else 0.0
  {
    var t, n := terms.(rateDelta := delta), loan.remainingMonths;
    BalanceIsRun(loan, terms, months, delta, j);
    assert Offset(loan, t) == Offset(loan, terms) && Graced(loan, t, n) == Graced(loan, terms, n);
    if j <= Offset(loan, terms) {
      NotYetDue(loan, t, j);
    } else if j - Offset(loan, terms) >= n {
      LastPeriod(loan, t);
      SettledAfterLastPeriod(loan, t, j);
    }
  }

  lemma LastPeriod(loan: Loan, terms: Terms)
    requires loan.Valid() && loan.repaymentType.Amortizing? && loan.principal > 0.0
    ensures var n := loan.remainingMonths;
      && Run(loan, terms, Offset(loan, terms) + n).Success?
      && OwedAfter(loan, terms, n) == if Graced(loan, terms, n) then OwedAfter(loan, terms, n - 1) else 0.0
  {
    var n := loan.remainingMonths;
    AmortizingBalance(loan, terms, n - 1);
    AmortizingBalance(loan, terms, n);
    ActiveMonth(loan, terms, n);
  }

  lemma NoJumpIffNoShow(loan: Loan, terms: Terms, deltas: seq<real>, j: nat)
    requires loan.Valid() && Schedule(loan, terms, |deltas|).Success? && 0 < j < |deltas| && deltas[j - 1] <= deltas[j]
    ensures Jump(loan, terms, deltas, j) == 0.0 <==> !SwitchShows(loan, terms, deltas[j - 1], deltas[j], j)
  {
    BalanceAtOrdered(loan, terms, |deltas|, deltas[j - 1], deltas[j], j);
    if loan.repaymentType.Amortizing? && loan.principal == 0.0 {
      NothingOwed(loan, terms, |deltas|, deltas[j - 1], j);
      NothingOwed(loan, terms, |deltas|, deltas[j], j);
    } else if loan.repaymentType.Amortizing? {
      AnnuityJump(loan, terms, |deltas|, deltas[j - 1], deltas[j], j);
    }
  }

  lemma NothingOwed(loan: Loan, terms: Terms, months: nat, delta: real, j: nat)
    requires loan.Valid() && loan.repaymentType.Amortizing? && loan.principal == 0.0 && j <= months
    ensures BalanceAt(loan, terms, months, delta, j) == 0.0
  {
    BalanceIsRun(loan, terms, months, delta, j);
    ScheduleChained(loan, terms.(rateDelta := delta), j);
  }

  lemma AnnuityJump(loan: Loan, terms: Terms, months: nat, d: real, e: real, j: nat)
    requires loan.Valid() && loan.repaymentType.Amortizing? && loan.principal > 0.0 && j <= months && d <= e
    ensures BalanceAt(loan, terms, months, d, j) == BalanceAt(loan, terms, months, e, j) <==> !SwitchShows(loan, terms, d, e, j)
  {
    AnnuityBalanceAt(loan, terms, months, d, j);
    AnnuityBalanceAt(loan, terms, months, e, j);
    var periods, n := j - Offset(loan, terms), loan.remainingMonths;
    if periods > 0 {
      var m: nat := if periods < n then periods else n - 1;
      DearerAnnuityOwesMoreIff(loan, terms.(rateDelta := d), loan, terms.(rateDelta := e), m);
      DeviationIsRate(loan, terms, d, e, m);
      ShowsUpTo(loan, terms, d, e, j, m);
    }
  }

  lemma DeviationIsRate(loan: Loan, terms: Terms, d: real, e: real, m: nat)
    requires loan.Valid() && d <= e
    ensures DeviatesBy(loan, terms.(rateDelta := d), loan, terms.(rateDelta := e), m)
      <==> exists i: nat :: 1 <= i <= m && RatesDiffer(loan, terms, d, e, i)
  {
    var ta, tb := terms.(rateDelta := d), terms.(rateDelta := e);
    forall i: nat ensures Deviates(loan, ta, loan, tb, i) <==> RatesDiffer(loan, terms, d, e, i) {
      DearerFacts(loan, ta, loan, tb, i);
    }
  }

  lemma ShowsUpTo(loan: Loan, terms: Terms, d: real, e: real, j: nat, m: nat)
    requires loan.repaymentType.Amortizing? && loan.principal > 0.0 && loan.remainingMonths > 0
    requires var periods := j - Offset(loan, terms);
      periods > 0 && m == if periods < loan.remainingMonths then periods else loan.remainingMonths - 1
    ensures SwitchShows(loan, terms, d, e, j) <==>
      && (j - Offset(loan, terms) < loan.remainingMonths || Graced(loan, terms, loan.remainingMonths))
      && exists i: nat :: 1 <= i <= m && RatesDiffer(loan, terms, d, e, i)
  {
  }

  /** With rate changes that never fall, a loan collects exactly its principal if and only if no switch shows: no
      annuity is open at a switch after periods that paid at different rates. */
  lemma ConservedIffNoSwitchShows(loan: Loan, terms: Terms, deltas: seq<real>, k: nat)
    requires loan.Valid() && Schedule(loan, terms, |deltas|).Success? && 0 < k <= |deltas|
    requires forall i, j :: 0 <= i < j < k ==> deltas[i] <= deltas[j]
    ensures Collected(loan, terms, deltas, k) + BalanceAt(loan, terms, |deltas|, deltas[k - 1], k) == loan.principal
      <==> forall j :: 0 < j < k ==> !SwitchShows(loan, terms, deltas[j - 1], deltas[j], j)
  {
    SwitchingSchedulesConserves(loan, terms, deltas, k);
    forall j | 0 < j < k
      ensures Jump(loan, terms, deltas, j) == 0.0 <==> !SwitchShows(loan, terms, deltas[j - 1], deltas[j], j)
    {
      NoJumpIffNoShow(loan, terms, deltas, j);
    }
  }

  /** A variable annuity over two months, at no interest first and at ten percent a month next, pays back more than
      was borrowed. */
  lemma VariableAnnuityIsNotConserved()
    ensures exists loan: Loan, terms: Terms, deltas: seq<real> ::
      && loan.Valid() && loan.repaymentType.Amortizing? && |deltas| == loan.remainingMonths == 2
      && Schedule(loan, terms, 2).Success?
      && Collected(loan, terms, deltas, 2) > loan.principal
  {
    var loan := Loan(0, 2100.0, 0.0, Variable, Amortizing, 2, None, None, None, []);
    var terms := Terms(0.0, 0, None);
    var deltas := [0.0, 1.2];
    FirstTwoMonths(loan, terms, 0.0);
    FirstTwoMonths(loan, terms.(rateDelta := 1.2), 0.1);
    TwoMonthSeries();
    assert deltas[0] == terms.rateDelta;
    CollectedInTwoMonths(loan, terms, deltas, 1050.0, 1100.0);
  }

  lemma TwoMonthSeries()
    ensures Series(0.0, 2) == 2.0 && Series(0.1, 2) == 2.1
    ensures 2100.0 / 2.0 == 1050.0 && 2100.0 / 2.1 == 1000.0
  {
    ZeroRateSeries(2);
    assert Series(0.1, 1) == 1.0 + 1.1 * Series(0.1, 0) == 1.0;
  }

  lemma CollectedInTwoMonths(loan: Loan, terms: Terms, deltas: seq<real>, first: real, second: real)
    requires |deltas| == 2
    requires var s := Schedule(loan, terms.(rateDelta := deltas[0]), 2); s.Success? && s.value[0].principal == first
    requires var s := Schedule(loan, terms.(rateDelta := deltas[1]), 2); s.Success? && s.value[1].principal == second
    ensures Collected(loan, terms, deltas, 2) == first + second
  {
    assert Collected(loan, terms, deltas, 0) == 0.0;
    assert Collected(loan, terms, deltas, 1) == first;
  }

  lemma FirstTwoMonths(loan: Loan, terms: Terms, r: real)
    requires loan == Loan(0, 2100.0, 0.0, Variable, Amortizing, 2, None, None, None, [])
    requires terms == Terms(terms.rateDelta, 0, None) && terms.rateDelta >= 0.0 && r == terms.rateDelta / 12.0
    ensures Schedule(loan, terms, 2).Success?
    ensures Series(r, 2) >= 1.0
    ensures Schedule(loan, terms, 2).value[0].principal == 2100.0 / Series(r, 2)
    ensures Schedule(loan, terms, 2).value[1].principal == 2100.0 - 2100.0 / Series(r, 2)
  {
    AnnuityIsShare(2100.0, r, 2);
    assert Run(loan, terms, 0) == Success(Progress([], 2100.0, 0));
    var first := Run(loan, terms, 1).value;
    assert first.balance == 2100.0 - 2100.0 / Series(r, 2) && first.period == 1;
    assert first.payments[0].principal == 2100.0 / Series(r, 2);
    ScheduleChained(loan, terms, 2);
    AdvanceSound(loan, terms, first);
  }
}
