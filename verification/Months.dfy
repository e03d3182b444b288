/**
 Month arithmetic of datetime intervals (datetime/datetime.go) over the proleptic Gregorian calendar.
 */
module Months {

  // ----- the calendar -----

  predicate IsLeap(year: int) {
    year % 4 == 0 && (year % 100 != 0 || year % 400 == 0)
  }

  function MonthLength(year: int, month: int): (days: int)
    ensures 28 <= days <= 31
  {
    if month == 2 then (if IsLeap(year) then 29 else 28)
    else if month == 4 || month == 6 || month == 9 || month == 11 then 30
    else 31
  }

  ghost function DaysBeforeYear(year: int): int {
    365 * (year - 1) + (year - 1) / 4 - (year - 1) / 100 + (year - 1) / 400
  }

  ghost function DaysBeforeMonth(year: int, month: int): int
    requires 1 <= month <= 12
    decreases month
  {
    if month == 1 then 0 else DaysBeforeMonth(year, month - 1) + MonthLength(year, month - 1)
  }

  /** Days since the last day before year 1. */
  ghost function DayNumber(year: int, month: int, day: int): int
    requires 1 <= month <= 12
  {
    DaysBeforeYear(year) + DaysBeforeMonth(year, month) + day
  }

  lemma Quarters(n: int)
    ensures (n + 1) / 4 == n / 4 + if (n + 1) % 4 == 0 then 1 else 0
  {
  }

  lemma Centuries(n: int)
    ensures (n + 1) / 100 == n / 100 + if (n + 1) % 100 == 0 then 1 else 0
  {
  }

  lemma Cycles(n: int)
    ensures (n + 1) / 400 == n / 400 + if (n + 1) % 400 == 0 then 1 else 0
  {
  }

  lemma Multiples(n: int)
    ensures n % 100 == 0 ==> n % 4 == 0
    ensures n % 400 == 0 ==> n % 100 == 0
  {
    if n % 100 == 0 {
      assert n == 4 * (25 * (n / 100));
    }
    if n % 400 == 0 {
      assert n == 100 * (4 * (n / 400));
    }
  }

  lemma YearLength(year: int)
    ensures DaysBeforeYear(year + 1) == DaysBeforeYear(year) + if IsLeap(year) then 366 else 365
  {
    Quarters(year - 1);
    Centuries(year - 1);
    Cycles(year - 1);
    Multiples(year);
  }

  lemma MonthsMakeYear(year: int)
    ensures DaysBeforeMonth(year, 12) + MonthLength(year, 12) == if IsLeap(year) then 366 else 365
  {
    var y := year;
    assert DaysBeforeMonth(y, 2) == 31;
    assert DaysBeforeMonth(y, 4) == DaysBeforeMonth(y, 3) + 31;
    assert DaysBeforeMonth(y, 6) == DaysBeforeMonth(y, 4) + 61;
    assert DaysBeforeMonth(y, 8) == DaysBeforeMonth(y, 6) + 61;
    assert DaysBeforeMonth(y, 10) == DaysBeforeMonth(y, 8) + 61;
    assert DaysBeforeMonth(y, 12) == DaysBeforeMonth(y, 10) + 61;
  }

  /** The number of days before a month is the one of the closed form for the Gregorian calendar. */
  lemma MonthsAreGregorian(year: int, month: int)
    requires 1 <= month <= 12
    ensures DaysBeforeMonth(year, month) ==
              (367 * month - 362) / 12 - if month <= 2 then 0 else if IsLeap(year) then 1 else 2
    ensures MonthLength(year, 12) == 31
  {
    if month > 1 {
      MonthsAreGregorian(year, month - 1);
    }
  }

  /** So the length of a month is the distance of two days of the calendar. */
  lemma LengthIsDistance(year: int, month: int)
    requires 1 <= month <= 12
    ensures var next := if month == 12 then DayNumber(year + 1, 1, 1) else DayNumber(year, month + 1, 1);
            MonthLength(year, month) == next - DayNumber(year, month, 1)
  {
    if month == 12 {
      YearLength(year);
      MonthsMakeYear(year);
    }
  }

  datatype Date = Date(year: int, month: int, day: int)

  /** What time.Date makes of day 0 of a month: the date before its first day. */
  function DateOfDayZero(year: int, month: int): Date {
    if month == 1 then Date(year - 1, 12, MonthLength(year - 1, 12))
    else Date(year, month - 1, MonthLength(year, month - 1))
  }

  /** That date is the one before the first of the month by its day number. */
  lemma DayZeroIsDayBefore(year: int, month: int)
    requires 1 <= month <= 12
    ensures var d := DateOfDayZero(year, month);
            1 <= d.month <= 12 && DayNumber(d.year, d.month, d.day) == DayNumber(year, month, 1) - 1
  {
    if month == 1 {
      YearLength(year - 1);
      MonthsMakeYear(year - 1);
    }
  }

  method DaysInMonth(year: int, month: int) returns (days: int)
    requires 1 <= month <= 12
    ensures days == MonthLength(year, month)
  {
    var y, m := year, month;
    if m == 12 {
      y := y + 1;
      m := 1;
    } else {
      m := m + 1;
    }
    days := DateOfDayZero(y, m).day;
  }

  // ----- Go arithmetic -----

  /** The / and % operators of Go truncate toward zero. */
  function Quotient(a: int, b: int): int
    requires b > 0
  {
    if a >= 0 then a / b else -(-a / b)
  }

  function Remainder(a: int, b: int): int
    requires b > 0
  {
    if a >= 0 then a % b else -(-a % b)
  }

  const MIN: int := -0x8000_0000_0000_0000
  const MAX: int := 0x7fff_ffff_ffff_ffff

  /** A result of 64-bit arithmetic. */
  function Wrapped(x: int): (r: int)
    ensures MIN <= r <= MAX
    ensures MIN <= x <= MAX ==> r == x
  {
    (x - MIN) % 0x1_0000_0000_0000_0000 + MIN
  }

  // ----- adding months -----

  datatype Adjust = NoneAdjust | ExcessAdjust | LastAdjust

  /** Months since January of year 0. */
  function Index(d: Date): int {
    12 * d.year + d.month - 1
  }

  function Least(a: int, b: int): int {
    if a <= b then a else b
  }

  /** The day in a month of `after` days for a day in one of `before` days. */
  function Adjusted(day: int, before: int, after: int, adjust: Adjust): int {
    match adjust
    case ExcessAdjust => day
    case NoneAdjust => Least(day, after)
    case LastAdjust => if day == before then after else Least(day, after)
  }

  /** The date whose month is `delta` months away, counted along the calendar. */
  function Moved(d: Date, delta: int, adjust: Adjust): (r: Date)
    ensures 1 <= r.month <= 12 && Index(r) == Index(d) + delta
  {
    var index := Index(d) + delta;
    var year, month := index / 12, index % 12 + 1;
    Date(year, month, Adjusted(d.day, MonthLength(d.year, d.month), MonthLength(year, month), adjust))
  }

  /** The years of the range that a Datetime can have. */
  ghost predicate InRange(year: int) {
    -5879610 <= year <= 5879611
  }

  class Interval {
    var year: int
    var month: int
    var day: int

    ghost predicate Valid()
      reads this
    {
      InRange(year) && 1 <= month <= 12
    }

    ghost function State(): Date
      reads this
    {
      Date(year, month, day)
    }

    constructor (year: int, month: int, day: int)
      requires InRange(year) && 1 <= month <= 12
      ensures Valid() && State() == Date(year, month, day)
    {
      this.year, this.month, this.day := year, month, day;
    }

    /** Moves along the calendar by delta, as 64-bit arithmetic adds it to the month. */
    method AddMonth(delta: int, adjust: Adjust)
      requires Valid() && MIN <= delta <= MAX
      modifies this
      ensures State() == Moved(old(State()), Wrapped(old(month) + delta) - old(month), adjust)
    {
      var oldYear, oldMonth := year, month;
      ghost var d := State();
      Carry(delta);
      MovedMonth(d, Wrapped(oldMonth + delta), adjust);
      if adjust == ExcessAdjust || day < 28 {
        return;
      }
      var dim := DaysInMonth(year, month);
      var oldDim := DaysInMonth(oldYear, oldMonth);
      if day > dim || (adjust == LastAdjust && day == oldDim) {
        day := dim;
      }
    }

    /** The first part of AddMonth. */
    method Carry(delta: int)
      requires Valid() && MIN <= delta <= MAX
      modifies this`year, this`month
      ensures var index := 12 * old(year) + Wrapped(old(month) + delta) - 1;
              year == index / 12 && month == index % 12 + 1
    {
      ghost var oldYear, sum := year, Wrapped(month + delta);
      month := Wrapped(month + delta);
      if month < 1 || month > 12 {
        year := Wrapped(year + Quotient(month, 12));
        month := Remainder(month, 12);
        if month < 1 {
          year := Wrapped(year - 1);
          month := month + 12;
        }
      }
      Carried(oldYear, sum, year, month);
    }
  }

  lemma MovedMonth(d: Date, sum: int, adjust: Adjust)
    ensures var index := 12 * d.year + sum - 1;
            var r := Moved(d, sum - d.month, adjust);
            r.year == index / 12 && r.month == index % 12 + 1
  {
  }

  /** Truncating division with its correction carries a month out of 1..12 into the year. */
  lemma Carried(oldYear: int, sum: int, year: int, month: int)
    requires InRange(oldYear) && MIN <= sum <= MAX
    requires
      if 1 <= sum <= 12 then year == oldYear && month == sum
      else if Remainder(sum, 12) < 1 then
        year == Wrapped(Wrapped(oldYear + Quotient(sum, 12)) - 1) && month == Remainder(sum, 12) + 12
      else year == Wrapped(oldYear + Quotient(sum, 12)) && month == Remainder(sum, 12)
    ensures year == (12 * oldYear + sum - 1) / 12 && month == (12 * oldYear + sum - 1) % 12 + 1
  {
    assert 12 * oldYear + sum - 1 == 12 * year + (month - 1);
  }

  /** The month moves by exactly delta unless the sum leaves the 64-bit range. */
  lemma MovesByDelta(month: int, delta: int)
    requires 1 <= month <= 12 && MIN <= delta <= MAX
    ensures Wrapped(month + delta) - month == delta <==> month + delta <= MAX
  {
  }

  /** December plus the largest delta wraps to the smallest month. */
  lemma LargestDeltaWraps()
    ensures Wrapped(12 + MAX) - 12 != MAX && Wrapped(12 + MAX) == MIN + 11
  {
    MovesByDelta(12, MAX);
  }

  // ----- what adding months keeps -----

  /** The last day of a month stays the last day. */
  lemma LastStaysLast(d: Date, delta: int)
    requires d.day == MonthLength(d.year, d.month)
    ensures var r := Moved(d, delta, LastAdjust);
            r.day == MonthLength(r.year, r.month)
  {
  }

  /** A day of a month becomes a day of the new month, and the same one if it has that day. */
  lemma StaysInMonth(d: Date, delta: int, adjust: Adjust)
    requires adjust != ExcessAdjust && 1 <= d.day <= MonthLength(d.year, d.month)
    ensures var r := Moved(d, delta, adjust);
            && 1 <= r.day <= MonthLength(r.year, r.month)
            && (d.day > MonthLength(r.year, r.month) ==> r.day == MonthLength(r.year, r.month))
            && (adjust == NoneAdjust && d.day <= MonthLength(r.year, r.month) ==> r.day == d.day)
  {
  }

  /** ExcessAdjust leaves the day alone, also one that the new month does not have. */
  lemma ExcessKeepsDay(d: Date, delta: int)
    ensures Moved(d, delta, ExcessAdjust).day == d.day
  {
  }

  /** When adding a months and then b gives what adding a + b gives: what is lost is a day that the
      month between does not have, and what is gained is the end of a shorter month between. */
  ghost predicate Additive(day: int, first: int, middle: int, last: int, adjust: Adjust) {
    match adjust
    case ExcessAdjust => true
    case NoneAdjust => day <= middle || last <= middle
    case LastAdjust => day == first || day < middle || last <= day
  }

  lemma SameMonth(d: Date, a: int, b: int, adjust: Adjust)
    ensures var r, s := Moved(Moved(d, a, adjust), b, adjust), Moved(d, a + b, adjust);
            r.year == s.year && r.month == s.month
  {
  }

  lemma AdditiveExactly(d: Date, a: int, b: int, adjust: Adjust)
    requires 1 <= d.month <= 12
    ensures var mid, end := Moved(d, a, adjust), Moved(d, a + b, adjust);
            Moved(mid, b, adjust) == end <==>
              Additive(d.day, MonthLength(d.year, d.month), MonthLength(mid.year, mid.month),
                       MonthLength(end.year, end.month), adjust)
  {
    SameMonth(d, a, b, adjust);
  }

  /** Days that every month has add up whatever the adjustment, and so do last days under LastAdjust. */
  lemma AlwaysAdditive(d: Date, a: int, b: int, adjust: Adjust)
    requires 1 <= d.month <= 12
    requires adjust == ExcessAdjust || d.day < 28 || (adjust == LastAdjust && d.day == MonthLength(d.year, d.month))
    ensures Moved(Moved(d, a, adjust), b, adjust) == Moved(d, a + b, adjust)
  {
    AdditiveExactly(d, a, b, adjust);
  }

  lemma MoveByNothing(d: Date, adjust: Adjust)
    requires 1 <= d.month <= 12 && (adjust == ExcessAdjust || d.day <= MonthLength(d.year, d.month))
    ensures Moved(d, 0, adjust) == d
  {
  }

  /** Subtracting undoes adding exactly under the same condition. */
  lemma UndoneExactly(d: Date, a: int, adjust: Adjust)
    requires 1 <= d.month <= 12 && d.day <= MonthLength(d.year, d.month)
    ensures var mid := Moved(d, a, adjust);
            Moved(mid, -a, adjust) == d <==>
              Additive(d.day, MonthLength(d.year, d.month), MonthLength(mid.year, mid.month),
                       MonthLength(d.year, d.month), adjust)
  {
    MoveByNothing(d, adjust);
    AdditiveExactly(d, a, -a, adjust);
  }

  /** The month part of add: years and months of the interval, in the given direction. */
  function DeltaOf(years: int, months: int, positive: bool): int {
    var direction := if positive then 1 else -1;
    Wrapped(Wrapped(Wrapped(direction * years) * 12) + Wrapped(direction * months))
  }

  /** The years and months of an interval are added or subtracted as one number of months. */
  lemma DeltaIsMonths(years: int, months: int, positive: bool)
    requires MIN < years <= MAX && MIN < months <= MAX
    requires MIN < 12 * years <= MAX && MIN < 12 * years + months <= MAX
    ensures DeltaOf(years, months, positive) == if positive then 12 * years + months else -(12 * years + months)
  {
  }

  /** January 31 plus one month and one month is March 28, plus two months March 31. */
  lemma NotAdditiveExample()
    ensures Moved(Moved(Date(2023, 1, 31), 1, NoneAdjust), 1, NoneAdjust) == Date(2023, 3, 28)
    ensures Moved(Date(2023, 1, 31), 2, NoneAdjust) == Date(2023, 3, 31)
  {
  }
}
