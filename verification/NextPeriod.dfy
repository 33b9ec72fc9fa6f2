/** When the next period starts: days, weeks and months, each shifted by a delay that
    may be negative or longer than the period. */
module NextPeriod {
  import opened Bitwise
  import opened Calendar
  import opened Grids

  const DAY: int := 86_400_000_000_000

  /** time.Truncate: down to a multiple of `d` since the zero time. */
  function Truncate(t: int, d: int): int
    requires d > 0
  {
    t - t % d
  }

  function DayOf(t: int): int { t / DAY }

  function StartOfDay(t: int): int { Truncate(t, DAY) }

  function StartOfWeek(t: int): int { Truncate(t, 7 * DAY) }

  datatype Period = Daily | Weekly | Monthly

  /** A calendar, as the day on which each month starts. */
  datatype Months = Months(start: int -> int) {
    ghost predicate Ok() {
      forall a, b :: a <= b ==> start(b) - start(a) >= 28 * (b - a)
    }

    /** `day` lies in `month`. */
    predicate In(day: int, month: int) { start(month) <= day < start(month + 1) }

    /** The month of a day, searched up or down from another month. */
    function From(day: int, from: int): (month: int)
      requires Ok()
      ensures In(day, month)
      decreases if start(from) <= day then day - start(from) else start(from) - day
    {
      if start(from) <= day then
        if day < start(from + 1) then from else From(day, from + 1)
      else if start(from - 1) <= day then from - 1
      else From(day, from - 1)
    }

    function Of(day: int): (month: int)
      requires Ok()
      ensures In(day, month)
    {
      From(day, 0)
    }

    lemma OfUnique(day: int, month: int)
      requires Ok() && In(day, month)
      ensures Of(day) == month
    {
      var m := Of(day);
      assert start(if m < month then month else m) >= start(if m < month then m + 1 else m);
    }

    /** Adding months and days to the civil date, as time.Date normalizes it. */
    function AddDate(t: int, months: int, days: int): int
      requires Ok()
    {
      var day := DayOf(t);
      var month := Of(day);
      (start(month + months) + (day - start(month)) + days) * DAY + t % DAY
    }

    lemma AddDays(t: int, days: int)
      requires Ok()
      ensures AddDate(t, 0, days) == t + days * DAY
    {}

    function StartOfMonth(t: int): int
      requires Ok()
    {
      start(Of(DayOf(t))) * DAY
    }

    function NextDailyTime(t: int, delay: int): int
      requires Ok()
    {
      AddDate(StartOfDay(t - delay), 0, 1) + delay
    }

    function NextWeeklyTime(t: int, delay: int): int
      requires Ok()
    {
      AddDate(StartOfWeek(t - delay), 0, 7) + delay
    }

    function NextMonthlyTime(t: int, delay: int): int
      requires Ok()
    {
      AddDate(StartOfMonth(t - delay), 1, 0) + delay
    }

    function Next(p: Period, t: int, delay: int): int
      requires Ok()
    {
      match p
      case Daily => NextDailyTime(t, delay)
      case Weekly => NextWeeklyTime(t, delay)
      case Monthly => NextMonthlyTime(t, delay)
    }

    // ---- periods, numbered ----

    /** The start of period number `k`, counted from the zero time. */
    function Boundary(p: Period, k: int): int {
      match p
      case Daily => k * DAY
      case Weekly => k * (7 * DAY)
      case Monthly => start(k) * DAY
    }

    /** The number of the period that `t` lies in. */
    function Index(p: Period, t: int): int
      requires Ok()
    {
      match p
      case Daily => t / DAY
      case Weekly => t / (7 * DAY)
      case Monthly => Of(DayOf(t))
    }

    /** Periods follow each other without gaps, and `t` lies in its period. */
    lemma IndexHolds(p: Period, t: int)
      requires Ok()
      ensures Boundary(p, Index(p, t)) <= t < Boundary(p, Index(p, t) + 1)
    {
      if p.Monthly? {
        var m := Of(DayOf(t));
        DayFloor(t, start(m));
        DayFloor(t, start(m + 1));
      }
    }

    lemma BoundariesIncrease(p: Period, a: int, b: int)
      requires Ok()
      ensures a < b <==> Boundary(p, a) < Boundary(p, b)
    {
      if p.Monthly? {
        var low, high := if a <= b then a else b, if a <= b then b else a;
        assert start(high) - start(low) >= 28 * (high - low);
      }
    }

    lemma MonthStartDay(k: int)
      requires Ok()
      ensures DayOf(start(k) * DAY) == start(k) && (start(k) * DAY) % DAY == 0 && Of(start(k)) == k
    {
      assert start(k + 1) - start(k) >= 28 * (k + 1 - k);
      OfUnique(start(k), k);
    }

    /** The next time is the delayed start of the period after the one that holds
        t - delay. */
    lemma NextIs(p: Period, t: int, delay: int)
      requires Ok()
      ensures Next(p, t, delay) == Boundary(p, Index(p, t - delay) + 1) + delay
    {
      match p {
        case Daily => AddDays(StartOfDay(t - delay), 1);
        case Weekly => AddDays(StartOfWeek(t - delay), 7);
        case Monthly => MonthStartDay(Index(p, t - delay));
      }
    }

    // ---- as functions of the instant ----

    function NextOf(p: Period, delay: int): int -> int
      requires Ok()
    {
      t => Next(p, t, delay)
    }

    function DelayedStart(p: Period, delay: int): int -> int {
      k => Boundary(p, k) + delay
    }

    function IndexOf(p: Period, delay: int): int -> int
      requires Ok()
    {
      t => Index(p, t - delay)
    }

    lemma FitAt(p: Period, delay: int, t: int)
      requires Ok()
      ensures FitsAt(NextOf(p, delay), DelayedStart(p, delay), IndexOf(p, delay), t)
    {
      var i, low, high := Bounds(p, delay, t);
      FitsIf(NextOf(p, delay), DelayedStart(p, delay), IndexOf(p, delay), t, i, low, high);
    }

    /** The delayed period that holds `t`. */
    lemma Bounds(p: Period, delay: int, t: int) returns (i: int, low: int, high: int)
      requires Ok()
      ensures i == IndexOf(p, delay)(t) && low == DelayedStart(p, delay)(i) && high == DelayedStart(p, delay)(i + 1)
      ensures low <= t < high && high == NextOf(p, delay)(t)
    {
      i := Index(p, t - delay);
      low, high := Boundary(p, i) + delay, Boundary(p, i + 1) + delay;
      IndexHolds(p, t - delay);
      NextIs(p, t, delay);
    }

    lemma StartsRise(p: Period, delay: int)
      requires Ok()
      ensures Rising(DelayedStart(p, delay))
    {
      var b := DelayedStart(p, delay);
      forall i, j | i < j ensures b(i) < b(j) {
        BoundariesIncrease(p, i, j);
      }
    }

    lemma Fit(p: Period, delay: int)
      requires Ok()
      ensures Fits(NextOf(p, delay), DelayedStart(p, delay), IndexOf(p, delay))
    {
      StartsRise(p, delay);
      forall t ensures FitsAt(NextOf(p, delay), DelayedStart(p, delay), IndexOf(p, delay), t) {
        FitAt(p, delay, t);
      }
    }
  }

  lemma DayFloor(t: int, day: int)
    ensures DayOf(t) >= day <==> t >= day * DAY
  {}

  // ---- the calendar of the program ----

  const GREGORIAN := Months(month => MonthStart(month))

  lemma GregorianIsOk()
    ensures GREGORIAN.Ok()
  {
    forall a, b | a <= b ensures MonthStart(b) - MonthStart(a) >= 28 * (b - a) {
      MonthsIncrease(a, b);
    }
  }

  /** Any instant, any delay: each of the three gives the least later delayed start,
      and repeating it visits them all, across year ends and leap Februaries. */
  lemma NextTimes(p: Period, t: int, delay: int)
    ensures GREGORIAN.Ok()
    ensures LeastAfter(GREGORIAN.DelayedStart(p, delay), t, GREGORIAN.Next(p, t, delay))
    ensures VisitsAll(GREGORIAN.NextOf(p, delay), GREGORIAN.DelayedStart(p, delay), t)
  {
    GregorianIsOk();
    var next, b, index := GREGORIAN.NextOf(p, delay), GREGORIAN.DelayedStart(p, delay), GREGORIAN.IndexOf(p, delay);
    GREGORIAN.Fit(p, delay);
    NextIsLeast(next, b, index, t);
    RepeatVisitsAll(next, b, index, t);
  }

  /** In nanoseconds: the next day starts at a multiple of 24 hours. */
  lemma NextDaily(t: int, delay: int)
    ensures GREGORIAN.Ok()
    ensures var r := GREGORIAN.NextDailyTime(t, delay);
            t < r <= t + 24 * 3600 * 1_000_000_000 && (r - delay) % (24 * 3600 * 1_000_000_000) == 0
  {
    GregorianIsOk();
    GREGORIAN.NextIs(Daily, t, delay);
    MultipleAfter(t - delay, DAY);
  }

  /** The next week at a multiple of seven times that. */
  lemma NextWeekly(t: int, delay: int)
    ensures GREGORIAN.Ok()
    ensures var r := GREGORIAN.NextWeeklyTime(t, delay);
            t < r <= t + 7 * 24 * 3600 * 1_000_000_000 && (r - delay) % (7 * 24 * 3600 * 1_000_000_000) == 0
  {
    GregorianIsOk();
    GREGORIAN.NextIs(Weekly, t, delay);
    MultipleAfter(t - delay, 7 * DAY);
  }

  lemma MultipleAfter(t: int, d: int)
    requires d > 0
    ensures t < (t / d + 1) * d <= t + d && ((t / d + 1) * d) % d == 0
  {
    assert t == t / d * d + t % d;
    assert (t / d + 1) * d == t / d * d + d;
    ModUnique((t / d + 1) * d, t / d + 1, 0, d);
  }

  /** And the next month where that begins that follows the month of `t - delay`. */
  lemma NextMonthly(t: int, delay: int, month: int)
    requires MonthStart(month) <= (t - delay) / (24 * 3600 * 1_000_000_000) < MonthStart(month + 1)
    ensures GREGORIAN.Ok()
    ensures GREGORIAN.NextMonthlyTime(t, delay) == MonthStart(month + 1) * (24 * 3600 * 1_000_000_000) + delay
  {
    GregorianIsOk();
    GREGORIAN.NextIs(Monthly, t, delay);
    GREGORIAN.OfUnique(DayOf(t - delay), month);
  }

  /** Sunday is 0; the Unix epoch, 1970-01-01, was a Thursday. */
  function Weekday(t: int): int {
    (DayOf(t) - YearStart(1970) + 4) % 7
  }

  /** Weeks start on Mondays, also before the zero time. */
  lemma WeeksStartOnMonday(t: int)
    ensures Weekday(StartOfWeek(t)) == 1
    ensures StartOfWeek(t) <= t < StartOfWeek(t) + 7 * DAY
  {
    var k := t / (7 * DAY);
    assert StartOfWeek(t) == 7 * k * DAY;
    assert DayOf(StartOfWeek(t)) == 7 * k;
    assert YearStart(1970) == 719162;
  }
}
