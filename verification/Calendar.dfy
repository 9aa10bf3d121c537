/**
 Gregorian calendar arithmetic behind the activation window of a subscription
 and behind the weekly schedule grid.
 */
module Calendar {

  datatype Date = Date(year: int, month: int, day: int)

  const MAX_YEAR := 9999

  predicate IsLeap(year: int) {
    year % 4 == 0 && (year % 100 != 0 || year % 400 == 0)
  }

  function DaysInMonth(year: int, month: int): (n: int)
    requires 1 <= month <= 12
    ensures 28 <= n <= 31
  {
    if month == 2 then (if IsLeap(year) then 29 else 28)
    else if month in {4, 6, 9, 11} then 30
    else 31
  }

  predicate Valid(d: Date) {
    1 <= d.year <= MAX_YEAR && 1 <= d.month <= 12 && 1 <= d.day <= DaysInMonth(d.year, d.month)
  }

  function DaysBeforeYear(year: int): int {
    365 * (year - 1) + (year - 1) / 4 - (year - 1) / 100 + (year - 1) / 400
  }

  function DaysBeforeMonth(year: int, month: int): int
    requires 1 <= month <= 13
    decreases month
  {
    if month == 1 then 0 else DaysBeforeMonth(year, month - 1) + DaysInMonth(year, month - 1)
  }

  /** Day number of a date; 0001-01-01 is day 1, a Monday. */
  function Ordinal(d: Date): int
    requires Valid(d)
  {
    DaysBeforeYear(d.year) + DaysBeforeMonth(d.year, d.month) + d.day
  }

  /** 0 is Monday, 6 is Sunday. */
  function Weekday(ordinal: int): (w: int)
    ensures 0 <= w < 7
  {
    (ordinal + 6) % 7
  }

  /** The calendar day after `d`: the reference against which day numbers are checked. */
  function NextDay(d: Date): Date
    requires Valid(d)
  {
    if d.day < DaysInMonth(d.year, d.month) then d.(day := d.day + 1)
    else if d.month < 12 then Date(d.year, d.month + 1, 1)
    else Date(d.year + 1, 1, 1)
  }

  predicate HasNextMonth(d: Date) {
    d.year < MAX_YEAR || d.month < 12
  }

  /** The same day one month later, clipped to the last day of that month. */
  function MonthAfter(d: Date): Date
    requires Valid(d) && HasNextMonth(d)
  {
    var year := d.year + d.month / 12;
    var month := d.month % 12 + 1;
    var lastDay := DaysInMonth(year, month);
    Date(year, month, if d.day < lastDay then d.day else lastDay)
  }

  /** The months of a year in their order. */
  lemma MonthTable(year: int, month: int)
    requires 1 <= month <= 12
    ensures DaysInMonth(year, month)
         == [31, if year % 400 == 0 || (year % 4 == 0 && year % 100 != 0) then 29 else 28, 31, 30, 31, 30, 31, 31, 30, 31, 30, 31][month - 1]
  {
  }

  function MonthIndex(d: Date): int {
    12 * d.year + d.month
  }

  // ---- Day numbers agree with the calendar ----

  lemma FourthYears(year: int)
    ensures year / 4 - (year - 1) / 4 == if year % 4 == 0 then 1 else 0
  {
  }

  lemma Centuries(year: int)
    ensures year / 100 - (year - 1) / 100 == if year % 100 == 0 then 1 else 0
  {
  }

  lemma FourthCenturies(year: int)
    ensures year / 400 - (year - 1) / 400 == if year % 400 == 0 then 1 else 0
  {
  }

  /** Every fourth century is a century, every century a fourth year. */
  lemma LeapRulesNest(year: int)
    ensures year % 400 == 0 ==> year % 100 == 0
    ensures year % 100 == 0 ==> year % 4 == 0
  {
    assert year == 400 * (year / 400) + year % 400 == 100 * (year / 100) + year % 100;
    HundredTimes(4 * (year / 400));
    FourTimes(25 * (year / 100));
  }

  lemma HundredTimes(k: int)
    ensures (100 * k) % 100 == 0
  {
  }

  lemma FourTimes(k: int)
    ensures (4 * k) % 4 == 0
  {
  }

  lemma YearLength(year: int)
    ensures DaysBeforeYear(year + 1) == DaysBeforeYear(year) + (if IsLeap(year) then 366 else 365)
  {
    FourthYears(year);
    Centuries(year);
    FourthCenturies(year);
    LeapRulesNest(year);
  }

  lemma TwelveMonths(year: int)
    ensures DaysBeforeMonth(year, 13) == if IsLeap(year) then 366 else 365
  {
    assert DaysBeforeMonth(year, 4) == 31 + DaysInMonth(year, 2) + 31 by {
      assert DaysBeforeMonth(year, 3) == DaysBeforeMonth(year, 2) + DaysInMonth(year, 2);
    }
    assert DaysBeforeMonth(year, 7) == DaysBeforeMonth(year, 4) + 91 by {
      assert DaysBeforeMonth(year, 6) == DaysBeforeMonth(year, 5) + DaysInMonth(year, 5);
    }
    assert DaysBeforeMonth(year, 10) == DaysBeforeMonth(year, 7) + 92 by {
      assert DaysBeforeMonth(year, 9) == DaysBeforeMonth(year, 8) + DaysInMonth(year, 8);
    }
    assert DaysBeforeMonth(year, 13) == DaysBeforeMonth(year, 10) + 92 by {
      assert DaysBeforeMonth(year, 12) == DaysBeforeMonth(year, 11) + DaysInMonth(year, 11);
    }
  }

  lemma OrdinalCountsDays(d: Date)
    requires Valid(d) && Valid(NextDay(d))
    ensures Ordinal(NextDay(d)) == Ordinal(d) + 1
  {
    YearLength(d.year);
    TwelveMonths(d.year);
  }

  /** First day of the month with the given index, as a day number minus one. */
  function MonthStart(year: int, month: int): int
    requires 1 <= month <= 12
  {
    DaysBeforeYear(year) + DaysBeforeMonth(year, month)
  }

  lemma YearStartStep(year: int)
    ensures MonthStart(year + 1, 1) == MonthStart(year, 12) + DaysInMonth(year, 12)
  {
    YearLength(year);
    TwelveMonths(year);
  }

  lemma MonthStartStep(year: int, month: int)
    requires 1 <= month <= 12
    ensures MonthStart(year + month / 12, month % 12 + 1) == MonthStart(year, month) + DaysInMonth(year, month)
  {
    if month == 12 {
      YearStartStep(year);
    } else {
      assert month / 12 == 0 && month % 12 == month;
    }
  }

  lemma {:induction false} MonthStartGrows(y1: int, m1: int, y2: int, m2: int)
    requires 1 <= m1 <= 12 && 1 <= m2 <= 12
    requires 12 * y1 + m1 < 12 * y2 + m2
    ensures MonthStart(y1, m1) + DaysInMonth(y1, m1) <= MonthStart(y2, m2)
    decreases 12 * y2 + m2 - (12 * y1 + m1)
  {
    MonthStartStep(y1, m1);
    var y, m := y1 + m1 / 12, m1 % 12 + 1;
    assert 12 * y + m == 12 * y1 + m1 + 1;
    if 12 * y + m < 12 * y2 + m2 {
      MonthStartGrows(y, m, y2, m2);
    } else {
      assert y == y2 && m == m2;
    }
  }

  /** Day numbers order dates exactly as the calendar does. */
  lemma OrdinalOrder(a: Date, b: Date)
    requires Valid(a) && Valid(b)
    ensures Ordinal(a) < Ordinal(b) <==>
            MonthIndex(a) < MonthIndex(b) || (MonthIndex(a) == MonthIndex(b) && a.day < b.day)
    ensures Ordinal(a) == Ordinal(b) <==> a == b
  {
    if MonthIndex(a) < MonthIndex(b) {
      MonthStartGrows(a.year, a.month, b.year, b.month);
    } else if MonthIndex(b) < MonthIndex(a) {
      MonthStartGrows(b.year, b.month, a.year, a.month);
    } else {
      assert a.year == b.year && a.month == b.month;
    }
  }

  // ---- The month-after rule ----

  lemma MonthAfterLandsInNextMonth(d: Date)
    requires Valid(d) && HasNextMonth(d)
    ensures Valid(MonthAfter(d))
    ensures MonthIndex(MonthAfter(d)) == MonthIndex(d) + 1
    ensures MonthAfter(d).day == d.day ||
            (MonthAfter(d).day < d.day && !Valid(MonthAfter(d).(day := d.day))
             && MonthAfter(d).day == DaysInMonth(MonthAfter(d).year, MonthAfter(d).month))
  {
  }

  lemma MonthAfterGap(d: Date)
    requires Valid(d) && HasNextMonth(d)
    ensures Valid(MonthAfter(d))
    ensures 28 <= Ordinal(MonthAfter(d)) - Ordinal(d) <= 31
  {
    MonthAfterLandsInNextMonth(d);
    var next := MonthAfter(d);
    MonthStartsAgree(d);
    MonthLengths(d.year, d.month);
    MonthLengths(next.year, next.month);
  }

  lemma OrdinalInMonth(d: Date)
    requires Valid(d)
    ensures Ordinal(d) == MonthStart(d.year, d.month) + d.day
  {
  }

  lemma MonthStartsAgree(d: Date)
    requires Valid(d) && HasNextMonth(d) && Valid(MonthAfter(d))
    ensures Ordinal(MonthAfter(d)) - Ordinal(d) == DaysInMonth(d.year, d.month) + MonthAfter(d).day - d.day
  {
    OrdinalInMonth(d);
    OrdinalInMonth(MonthAfter(d));
    NextMonthStart(d);
  }

  lemma NextMonthStart(d: Date)
    requires Valid(d) && HasNextMonth(d) && 1 <= MonthAfter(d).month <= 12
    ensures MonthStart(MonthAfter(d).year, MonthAfter(d).month) == MonthStart(d.year, d.month) + DaysInMonth(d.year, d.month)
  {
    MonthStartStep(d.year, d.month);
  }

  lemma MonthLengths(year: int, month: int)
    requires 1 <= month <= 12
    ensures 28 <= DaysInMonth(year, month) <= 31
  {
  }

  lemma MonthAfterMonotone(a: Date, b: Date)
    requires Valid(a) && HasNextMonth(a) && Valid(b) && HasNextMonth(b)
    requires Ordinal(a) <= Ordinal(b)
    ensures Valid(MonthAfter(a)) && Valid(MonthAfter(b))
    ensures Ordinal(MonthAfter(a)) <= Ordinal(MonthAfter(b))
  {
    OrdinalOrder(a, b);
    MonthAfterLandsInNextMonth(a);
    MonthAfterLandsInNextMonth(b);
    OrdinalOrder(MonthAfter(b), MonthAfter(a));
  }

  // ---- Weekdays inside the window ----

  /** How many days n with lo <= n < hi fall on weekday w. */
  function WeekdayCount(lo: int, hi: int, w: int): nat
    decreases hi - lo
  {
    if hi <= lo then 0
    else WeekdayCount(lo, hi - 1, w) + if Weekday(hi - 1) == w then 1 else 0
  }

  lemma {:induction false} WeekdayCountSplits(lo: int, mid: int, hi: int, w: int)
    requires lo <= mid <= hi
    ensures WeekdayCount(lo, hi, w) == WeekdayCount(lo, mid, w) + WeekdayCount(mid, hi, w)
    decreases hi - mid
  {
    if mid < hi {
      WeekdayCountSplits(lo, mid, hi - 1, w);
    }
  }

  /** Days from `lo` to the first day falling on weekday `w`. */
  function DaysUntil(lo: int, w: int): (n: int)
    requires 0 <= w < 7
    ensures 0 <= n < 7
  {
    (w - Weekday(lo)) % 7
  }

  /** A remainder only depends on the remainder of one summand. */
  lemma RemainderAdds(x: int, k: int)
    ensures (x + k) % 7 == (x % 7 + k) % 7
  {
    SevenTimes(x / 7, x % 7 + k);
    assert x + k == 7 * (x / 7) + (x % 7 + k);
  }

  lemma SevenTimes(q: int, r: int)
    ensures (7 * q + r) % 7 == r % 7
  {
  }

  lemma WeekWraps(a: int, k: int, w: int)
    requires 0 <= a < 7 && 0 <= k < 7 && 0 <= w < 7
    ensures (a + k) % 7 == w <==> (w - a) % 7 == k
  {
  }

  lemma WeekdayAhead(lo: int, k: int, w: int)
    requires 0 <= w < 7 && 0 <= k < 7
    ensures Weekday(lo + k) == w <==> DaysUntil(lo, w) == k
  {
    assert lo + k + 6 == lo + 6 + k;
    RemainderAdds(lo + 6, k);
    WeekWraps(Weekday(lo), k, w);
  }

  lemma {:induction false} PartialWeek(lo: int, k: nat, w: int)
    requires 0 <= w < 7 && k <= 7
    ensures WeekdayCount(lo, lo + k, w) == if DaysUntil(lo, w) < k then 1 else 0
  {
    if k > 0 {
      PartialWeek(lo, k - 1, w);
      WeekdayAhead(lo, k - 1, w);
    }
  }

  lemma {:induction false} WholeWeeks(lo: int, weeks: nat, w: int)
    requires 0 <= w < 7
    ensures WeekdayCount(lo, lo + 7 * weeks, w) == weeks
    decreases weeks
  {
    if weeks > 0 {
      WholeWeeks(lo, weeks - 1, w);
      PartialWeek(lo + 7 * (weeks - 1), 7, w);
      WeekdayCountSplits(lo, lo + 7 * (weeks - 1), lo + 7 * weeks, w);
    }
  }

  lemma FourOrFive(lo: int, hi: int, w: int)
    requires 0 <= w < 7 && lo + 28 <= hi <= lo + 35
    ensures 4 <= WeekdayCount(lo, hi, w) <= 5
  {
    WholeWeeks(lo, 4, w);
    WholeWeeks(lo, 5, w);
    WeekdayCountSplits(lo, lo + 28, hi, w);
    WeekdayCountSplits(lo, hi, lo + 35, w);
  }

  /**
   The window runs from the first lesson to the end of the day one month later.
   Every weekday occurs four or five times in it, so the four sessions granted
   for a weekly slot can all be held.
   */
  lemma WindowHoldsFourLessons(first: Date, w: int)
    requires Valid(first) && HasNextMonth(first) && 0 <= w < 7
    ensures Valid(MonthAfter(first))
    ensures 4 <= WeekdayCount(Ordinal(first), Ordinal(MonthAfter(first)) + 1, w) <= 5
  {
    MonthAfterGap(first);
    FourOrFive(Ordinal(first), Ordinal(MonthAfter(first)) + 1, w);
  }

  // ---- Weeks ----

  /** Monday of the week of a day number. */
  function WeekStart(ordinal: int): (monday: int)
    ensures Weekday(monday) == 0 && monday <= ordinal < monday + 7
  {
    ordinal - Weekday(ordinal)
  }

  lemma WeekStartOfDay(monday: int, offset: int)
    requires Weekday(monday) == 0 && 0 <= offset < 7
    ensures WeekStart(monday + offset) == monday && Weekday(monday + offset) == offset
  {
    assert (monday + 6) % 7 == 0;
    assert (monday + offset + 6) % 7 == offset;
  }
}
