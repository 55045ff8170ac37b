/** Month lengths of the Gregorian calendar; months are counted as year * 12 + month - 1. */
module Calendar {
  predicate LeapYear(year: int) {
    year % 4 == 0 && (year % 100 != 0 || year % 400 == 0)
  }

  function DaysInMonth(month: int): (days: int)
    ensures 28 <= days <= 31
  {
    var number := month % 12 + 1;
    if number == 2 then (if LeapYear(month / 12) then 29 else 28)
    else if number in {4, 6, 9, 11} then 30
    else 31
  }

  /** Day ordinal of the first of a month; 0001-01-01, month 12, is day 1. */
  function MonthStart(month: nat): int {
    if month <= 12 then 1 else MonthStart(month - 1) + DaysInMonth(month - 1)
  }

  function MonthEnd(month: nat): int { MonthStart(month) + DaysInMonth(month) - 1 }

  lemma MonthsAdjoin(month: nat)
    requires month >= 12
    ensures MonthStart(month + 1) == MonthEnd(month) + 1
  {
  }

  lemma {:induction false} MonthStartsAscend(first: nat, months: nat)
    requires first >= 12
    ensures MonthStart(first) <= MonthStart(first + months)
  {
    if months > 0 { MonthStartsAscend(first, months - 1); }
  }

  /** Days of a year; every fourth year has one more, except three of four centuries. */
  lemma YearLength(year: nat)
    requires year >= 1
    ensures MonthStart(12 * year + 12) == MonthStart(12 * year) + if LeapYear(year) then 366 else 365
  {
    var m := 12 * year;
    MonthLengths(year);
    TwelveMonths(m);
  }

  lemma TwelveMonths(m: nat)
    requires m >= 12
    ensures MonthStart(m + 12) == MonthStart(m) + DaysInMonth(m) + DaysInMonth(m + 1) + DaysInMonth(m + 2) + DaysInMonth(m + 3)
      + DaysInMonth(m + 4) + DaysInMonth(m + 5) + DaysInMonth(m + 6) + DaysInMonth(m + 7)
      + DaysInMonth(m + 8) + DaysInMonth(m + 9) + DaysInMonth(m + 10) + DaysInMonth(m + 11)
  {
    FourMonths(m);
    FourMonths(m + 4);
    FourMonths(m + 8);
  }

  lemma MonthOfYear(year: nat, k: nat)
    requires k < 12
    ensures (12 * year + k) / 12 == year && (12 * year + k) % 12 == k
  {
  }

  lemma MonthLengths(year: nat)
    ensures var m := 12 * year;
      && DaysInMonth(m) == DaysInMonth(m + 2) == DaysInMonth(m + 4) == DaysInMonth(m + 6) == DaysInMonth(m + 7) == 31
      && DaysInMonth(m + 9) == DaysInMonth(m + 11) == 31
      && DaysInMonth(m + 3) == DaysInMonth(m + 5) == DaysInMonth(m + 8) == DaysInMonth(m + 10) == 30
      && DaysInMonth(m + 1) == if LeapYear(year) then 29 else 28
  {
    MonthOfYear(year, 0);
    MonthOfYear(year, 1);
    MonthOfYear(year, 2);
    MonthOfYear(year, 3);
    MonthOfYear(year, 4);
    MonthOfYear(year, 5);
    MonthOfYear(year, 6);
    MonthOfYear(year, 7);
    MonthOfYear(year, 8);
    MonthOfYear(year, 9);
    MonthOfYear(year, 10);
    MonthOfYear(year, 11);
  }

  lemma FourMonths(m: nat)
    requires m >= 12
    ensures MonthStart(m + 4) == MonthStart(m) + DaysInMonth(m) + DaysInMonth(m + 1) + DaysInMonth(m + 2) + DaysInMonth(m + 3)
  {
    assert MonthStart(m + 1) == MonthStart(m) + DaysInMonth(m);
    assert MonthStart(m + 2) == MonthStart(m + 1) + DaysInMonth(m + 1);
    assert MonthStart(m + 3) == MonthStart(m + 2) + DaysInMonth(m + 2);
    assert MonthStart(m + 4) == MonthStart(m + 3) + DaysInMonth(m + 3);
  }

  lemma QuotientsNext(n: nat)
    requires n >= 1
    ensures n / 4 == (n - 1) / 4 + if n % 4 == 0 then 1 else 0
    ensures n / 100 == (n - 1) / 100 + if n % 100 == 0 then 1 else 0
    ensures n / 400 == (n - 1) / 400 + if n % 400 == 0 then 1 else 0
  {
  }

  lemma LeapCount(year: nat)
    requires year >= 1
    ensures year / 4 - year / 100 + year / 400 == (year - 1) / 4 - (year - 1) / 100 + (year - 1) / 400 + if LeapYear(year) then 1 else 0
  {
    QuotientsNext(year);
    CenturiesAreFourths(year);
  }

  lemma CenturiesAreFourths(n: nat)
    ensures n % 400 == 0 ==> n % 100 == 0
    ensures n % 100 == 0 ==> n % 4 == 0
  {
    if n % 400 == 0 { Multiple(n, 4 * (n / 400), 100); }
    if n % 100 == 0 { Multiple(n, 25 * (n / 100), 4); }
  }

  lemma Multiple(n: nat, q: nat, d: nat)
    requires n == q * d && (d == 4 || d == 100)
    ensures n % d == 0
  {
    if d == 4 { assert n == q * 4; } else { assert n == q * 100; }
  }

  /** The first day of a year by the rule of the Gregorian calendar. */
  lemma {:induction false} YearStart(year: nat)
    requires year >= 1
    ensures MonthStart(12 * year) == 365 * (year - 1) + (year - 1) / 4 - (year - 1) / 100 + (year - 1) / 400 + 1
  {
    if year > 1 {
      YearStart(year - 1);
      YearLength(year - 1);
      LeapCount(year - 1);
    }
  }
}
