/** The proleptic Gregorian calendar. Days are counted from 0001-01-01, months from
    the month of that day. */
module Calendar {
  import opened Grids

  predicate Leap(year: int) {
    year % 4 == 0 && (year % 100 != 0 || year % 400 == 0)
  }

  function YearOfMonth(month: int): int { 1 + month / 12 }

  /** How long month number `m` of a year is, counted from 0. */
  function Length(m: nat, leap: bool): (n: nat)
    requires m < 12
    ensures 28 <= n <= 31
  {
    if m == 1 then (if leap then 29 else 28)
    else if m == 3 || m == 5 || m == 8 || m == 10 then 30 else 31
  }

  function DaysIn(month: int): (n: nat)
    ensures 28 <= n <= 31
  {
    Length(month % 12, Leap(YearOfMonth(month)))
  }

  function Lengths(): int -> int { m => DaysIn(m) }

  /** Days between 0001-01-01 and the start of a month: the lengths of the months in
      between. */
  function MonthStart(month: int): int { Sum(Lengths(), month) }

  // ---- the same in closed form ----

  /** Days between 0001-01-01 and the start of a year. */
  function YearStart(year: int): int {
    var y := year - 1;
    365 * y + y / 4 - y / 100 + y / 400
  }

  /** Days of a year before its month `m`, counted from 0. */
  function DaysBefore(m: nat, leap: bool): nat
    requires m < 12
  {
    [0, 31, 59, 90, 120, 151, 181, 212, 243, 273, 304, 334][m] + if leap && m >= 2 then 1 else 0
  }

  lemma FloorStep(y: int, d: int)
    requires d in {4, 100, 400}
    ensures y / d - (y - 1) / d == if y % d == 0 then 1 else 0
  {}

  lemma LeapBy100(year: int)
    ensures year % 100 == 0 ==> year % 4 == 0
    ensures year % 400 == 0 ==> year % 100 == 0
  {}

  lemma YearLength(year: int)
    ensures YearStart(year + 1) == YearStart(year) + if Leap(year) then 366 else 365
  {
    FloorStep(year, 4);
    FloorStep(year, 100);
    FloorStep(year, 400);
    LeapBy100(year);
  }

  lemma DaysBeforeStep(m: nat, leap: bool)
    requires m < 12
    ensures DaysBefore(m, leap) + Length(m, leap)
         == if m < 11 then DaysBefore(m + 1, leap) else if leap then 366 else 365
  {}

  lemma NextMonth(month: int)
    ensures if month % 12 < 11 then YearOfMonth(month + 1) == YearOfMonth(month) && (month + 1) % 12 == month % 12 + 1
            else YearOfMonth(month + 1) == YearOfMonth(month) + 1 && (month + 1) % 12 == 0
  {}

  function ClosedForm(month: int): int {
    YearStart(YearOfMonth(month)) + DaysBefore(month % 12, Leap(YearOfMonth(month)))
  }

  lemma ClosedStep(month: int)
    ensures ClosedForm(month + 1) == ClosedForm(month) + DaysIn(month)
  {
    var year, m := YearOfMonth(month), month % 12;
    NextMonth(month);
    DaysBeforeStep(m, Leap(year));
    if m == 11 {
      YearLength(year);
    }
  }

  function ClosedForms(): int -> int { m => ClosedForm(m) }

  lemma ClosedSteps()
    ensures ClosedForms()(0) == 0
    ensures forall m :: Difference(ClosedForms(), m) == Lengths()(m)
  {
    assert YearStart(1) == 0;
    forall m ensures Difference(ClosedForms(), m) == Lengths()(m) {
      ClosedStep(m);
    }
  }

  /** Summing month lengths agrees with counting years and leap years. */
  lemma MonthStartClosed(month: int)
    ensures MonthStart(month) == ClosedForms()(month)
  {
    ClosedSteps();
    SumIs(Lengths(), ClosedForms(), month);
  }

  lemma MonthsIncrease(a: int, b: int)
    requires a <= b
    ensures MonthStart(b) - MonthStart(a) >= 28 * (b - a)
  {
    SumRises(Lengths(), 28, a, b);
  }
}
