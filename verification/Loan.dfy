/** Repayment schedules of a single loan (backend/src/finance/loan.py), in exact arithmetic. */
module Loan {
  import opened Wrappers
  import opened Keys
  import opened Reals

  datatype RateType = Fixed | Variable

  datatype RepaymentType = Bullet | EqualPrincipal | Amortizing | CustomSchedule

  datatype CustomPayment = CustomPayment(principal: real, interest: real)

  /** Months are counted as year * 12 + month - 1, the index that `_month_key` prints. */
  datatype Loan = Loan(
    id: Key,
    principal: real,
    annualRate: real,
    rateType: RateType,
    repaymentType: RepaymentType,
    remainingMonths: nat,
    nextPaymentMonth: Option<int>,
    graceEndMonth: Option<int>,
    renewalMonth: Option<int>,
    customSchedule: seq<CustomPayment>)
  {
    /** The field constraints of the loan contract. */
    ghost predicate Valid() {
      && principal >= 0.0
      && annualRate >= 0.0
      && remainingMonths > 0
      && (renewalMonth.Some? ==> renewalMonth.value >= 1)
      && forall i :: 0 <= i < |customSchedule| ==> customSchedule[i].principal >= 0.0 && customSchedule[i].interest >= 0.0
    }
  }

  /** The remaining arguments of one schedule calculation. */
  datatype Terms = Terms(rateDelta: real, graceMonths: int, start: Option<int>)

  datatype Payment = Payment(
    month: int,
    opening: real,
    interest: real,
    principal: real,
    closing: real,
    appliedRate: real)

  datatype ScheduleError = CustomScheduleMissing(loanId: Key, period: nat)

  datatype Progress = Progress(payments: seq<Payment>, balance: real, period: nat)

  function Pow(q: real, n: nat): real {
    if n == 0 then 1.0 else Pow(q, n - 1) * q
  }

  /** Bernoulli's inequality. */
  lemma {:induction false} PowExceeds(q: real, n: nat)
    requires q >= 1.0
    ensures Pow(q, n) >= 1.0 + (n as real) * (q - 1.0)
  {
    if n > 0 {
      PowExceeds(q, n - 1);
      BernoulliStep((n - 1) as real, Pow(q, n - 1), q);
    }
  }

  lemma BernoulliStep(m: real, power: real, q: real)
    requires m >= 0.0 && q >= 1.0 && power >= 1.0 + m * (q - 1.0)
    ensures power * q >= 1.0 + (m + 1.0) * (q - 1.0)
  {
    var x := q - 1.0;
    var y := m * x;
    MulNonNegative(m, x);
    MulNonNegative(y, x);
    MulNonNegative(power - 1.0 - y, q);
    assert (1.0 + y) * q == 1.0 + y + x + y * x;
    assert (m + 1.0) * x == y + x;
  }

  lemma PowAboveOne(q: real, n: nat)
    requires q > 1.0 && n > 0
    ensures Pow(q, n) > 1.0
  {
    PowExceeds(q, n);
    var m, x := n as real, q - 1.0;
    assert m * x > 0.0;
  }

  method DecimalPow(base: real, exponent: nat) returns (result: real)
    ensures result == Pow(base, exponent)
  {
    result := 1.0;
    for i := 0 to exponent
      invariant result == Pow(base, i)
    {
      result := result * base;
    }
  }

  predicate RateApplies(loan: Loan, month: int) {
    loan.rateType.Variable? && month >= (if loan.renewalMonth.Some? then loan.renewalMonth.value else 1)
  }

  function AppliedRate(loan: Loan, terms: Terms, month: int): (rate: real)
    ensures rate >= 0.0
  {
    Max(0.0, loan.annualRate + if RateApplies(loan, month) then terms.rateDelta else 0.0)
  }

  predicate BeforeFirstPayment(loan: Loan, terms: Terms, month: int) {
    terms.start.Some? && loan.nextPaymentMonth.Some? && terms.start.value + month - 1 < loan.nextPaymentMonth.value
  }

  predicate InGrace(loan: Loan, terms: Terms, month: int, period: nat) {
    || period <= terms.graceMonths
    || (terms.start.Some? && loan.graceEndMonth.Some? && terms.start.value + month - 1 <= loan.graceEndMonth.value)
  }

  function ZeroPayment(month: int, balance: real, rate: real): Payment {
    Payment(month, balance, 0.0, 0.0, balance, rate)
  }

  function LevelPayment(opening: real, monthlyRate: real, factor: real): real
    requires factor != 1.0
  {
    opening * monthlyRate * factor / (factor - 1.0)
  }

  /** The annuity principal of one month, as recomputed from the balance and the periods left. */
  function AnnuityPrincipal(opening: real, monthlyRate: real, periodsLeft: nat): real
    requires monthlyRate >= 0.0 && periodsLeft > 0
  {
    if monthlyRate == 0.0 then
      opening / (periodsLeft as real)
    else
      PowAboveOne(1.0 + monthlyRate, periodsLeft);
      var factor := Pow(1.0 + monthlyRate, periodsLeft);
      Min(opening, LevelPayment(opening, monthlyRate, factor) - opening * monthlyRate)
  }

  /** Principal and interest that the contract asks for in an active period, before any grace. */
  function Due(loan: Loan, opening: real, monthlyRate: real, period: nat): Result<CustomPayment, ScheduleError>
    requires monthlyRate >= 0.0 && 0 < period <= loan.remainingMonths
  {
    var last := period == loan.remainingMonths;
    var interest := opening * monthlyRate;
    match loan.repaymentType
    case Bullet => Success(CustomPayment(if last then opening else 0.0, interest))
    case EqualPrincipal =>
      Success(CustomPayment(Min(opening, loan.principal / (loan.remainingMonths as real)), interest))
    case Amortizing =>
      var principal := AnnuityPrincipal(opening, monthlyRate, loan.remainingMonths - period + 1);
      Success(CustomPayment(if last then opening else principal, if monthlyRate == 0.0 then 0.0 else interest))
    case CustomSchedule =>
      if |loan.customSchedule| < period then Failure(CustomScheduleMissing(loan.id, period))
      else Success(loan.customSchedule[period - 1])
  }

  /** One month of the schedule from the balance and the number of active periods so far. */
  function Advance(loan: Loan, terms: Terms, p: Progress): Result<Progress, ScheduleError> {
    var month := |p.payments| + 1;
    var rate := AppliedRate(loan, terms, month);
    if p.balance <= 0.0 then
      Success(p.(payments := p.payments + [ZeroPayment(month, 0.0, rate)]))
    else if BeforeFirstPayment(loan, terms, month) then
      Success(p.(payments := p.payments + [ZeroPayment(month, p.balance, rate)]))
    else if p.period + 1 > loan.remainingMonths then
      Success(Progress(p.payments + [ZeroPayment(month, p.balance, rate)], p.balance, p.period + 1))
    else
      match Due(loan, p.balance, rate / 12.0, p.period + 1)
      case Failure(error) => Failure(error)
      case Success(due) =>
        var asked := if InGrace(loan, terms, month, p.period + 1) then 0.0 else due.principal;
        var paid := Min(asked, p.balance);
        var closing := Max(0.0, p.balance - paid);
        Success(Progress(p.payments + [Payment(month, p.balance, due.interest, paid, closing, rate)], closing, p.period + 1))
  }

  /** The state after the first `months` months. */
  function Run(loan: Loan, terms: Terms, months: nat): (r: Result<Progress, ScheduleError>)
    ensures r.Success? ==> |r.value.payments| == months
  {
    if months == 0 then Success(Progress([], loan.principal, 0))
    else
      match Run(loan, terms, months - 1)
      case Failure(error) => Failure(error)
      case Success(p) => Advance(loan, terms, p)
  }

  function Schedule(loan: Loan, terms: Terms, months: nat): (r: Result<seq<Payment>, ScheduleError>)
    ensures r.Success? ==> |r.value| == months
  {
    match Run(loan, terms, months)
    case Failure(error) => Failure(error)
    case Success(p) => Success(p.payments)
  }

  lemma {:induction false} FailurePersists(loan: Loan, terms: Terms, k: nat, months: nat)
    requires k <= months && Run(loan, terms, k).Failure?
    ensures Run(loan, terms, months) == Run(loan, terms, k)
  {
    if k < months { FailurePersists(loan, terms, k, months - 1); }
  }

  method ComputeAnnuityPrincipal(opening: real, monthlyRate: real, periodsLeft: nat) returns (principal: real)
    requires monthlyRate >= 0.0 && periodsLeft > 0
    ensures principal == AnnuityPrincipal(opening, monthlyRate, periodsLeft)
  {
    if monthlyRate == 0.0 {
      principal := opening / (periodsLeft as real);
    } else {
      var factor := DecimalPow(1.0 + monthlyRate, periodsLeft);
      PowAboveOne(1.0 + monthlyRate, periodsLeft);
      principal := Min(opening, LevelPayment(opening, monthlyRate, factor) - opening * monthlyRate);
    }
  }

  /** The repayment-type branch of the loop, before grace and clamping. */
  method ComputeDue(loan: Loan, opening: real, monthlyRate: real, period: nat) returns (r: Result<CustomPayment, ScheduleError>)
    requires monthlyRate >= 0.0 && 0 < period <= loan.remainingMonths
    ensures r == Due(loan, opening, monthlyRate, period)
  {
    var principal := 0.0;
    var interest := opening * monthlyRate;
    match loan.repaymentType {
      case Bullet =>
        if period == loan.remainingMonths { principal := opening; }
        assert Due(loan, opening, monthlyRate, period) == Success(CustomPayment(principal, interest));
      case EqualPrincipal =>
        principal := Min(opening, loan.principal / (loan.remainingMonths as real));
        assert Due(loan, opening, monthlyRate, period) == Success(CustomPayment(principal, interest));
      case Amortizing =>
        principal := ComputeAnnuityPrincipal(opening, monthlyRate, loan.remainingMonths - period + 1);
        if monthlyRate == 0.0 { interest := 0.0; }
        if period == loan.remainingMonths { principal := opening; }
        assert Due(loan, opening, monthlyRate, period) == Success(CustomPayment(principal, interest));
      case CustomSchedule =>
        if |loan.customSchedule| < period {
          return Failure(CustomScheduleMissing(loan.id, period));
        }
        return Success(loan.customSchedule[period - 1]);
    }
    r := Success(CustomPayment(principal, interest));
  }

  method CalculateLoanSchedule(loan: Loan, horizon: nat, terms: Terms) returns (r: Result<seq<Payment>, ScheduleError>)
    ensures r == Schedule(loan, terms, horizon)
  {
    var schedule: seq<Payment> := [];
    var opening := loan.principal;
    var period: nat := 0;
    for k := 0 to horizon
      invariant Run(loan, terms, k) == Success(Progress(schedule, opening, period))
    {
      var month := k + 1;
      var rate := AppliedRate(loan, terms, month);
      ghost var before := Progress(schedule, opening, period);
      if opening <= 0.0 {
        schedule := schedule + [ZeroPayment(month, 0.0, rate)];
        continue;
      }
      if BeforeFirstPayment(loan, terms, month) {
        schedule := schedule + [ZeroPayment(month, opening, rate)];
        continue;
      }
      period := period + 1;
      if period > loan.remainingMonths {
        schedule := schedule + [ZeroPayment(month, opening, rate)];
        continue;
      }
      var monthlyRate := rate / 12.0;
      var due := ComputeDue(loan, opening, monthlyRate, period);
      if due.Failure? {
        r := Failure(due.error);
        assert Run(loan, terms, k + 1) == Failure(due.error);
        FailurePersists(loan, terms, k + 1, horizon);
        return;
      }
      var principal, interest := due.value.principal, due.value.interest;
      if InGrace(loan, terms, month, period) {
        principal := 0.0;
      }
      principal := Min(principal, opening);
      var closing := Max(0.0, opening - principal);
      schedule := schedule + [Payment(month, opening, interest, principal, closing, rate)];
      opening := closing;
      assert Advance(loan, terms, before) == Success(Progress(schedule, opening, period));
    }
    r := Success(schedule);
  }
}
