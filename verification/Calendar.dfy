/** Civil dates as the Go time package and PostgreSQL compute with them: days one at a time,
    months by index. */
module Calendar {
  datatype Date = Date(year: int, month: int, day: int)

  predicate IsLeap(y: int) { y % 4 == 0 && (y % 100 != 0 || y % 400 == 0) }

  function MonthLength(y: int, m: int): (n: nat)
    requires 1 <= m <= 12
    ensures 28 <= n <= 31
  {
    if m == 2 then (if IsLeap(y) then 29 else 28)
    else if m in {4, 6, 9, 11} then 30
    else 31
  }

  predicate Valid(d: Date) {
    1 <= d.month <= 12 && 1 <= d.day <= MonthLength(d.year, d.month)
  }

  /** Months counted from January of year 0; out-of-range month numbers carry into the year. */
  function MonthIndex(y: int, m: int): int { 12 * y + m - 1 }

  function First(k: int): (d: Date)
    ensures Valid(d) && MonthIndex(d.year, d.month) == k
  {
    Date(k / 12, k % 12 + 1, 1)
  }

  function Len(k: int): (n: nat)
    ensures 28 <= n <= 31
  {
    MonthLength(k / 12, k % 12 + 1)
  }

  predicate Before(a: Date, b: Date) {
    || a.year < b.year
    || (a.year == b.year && (a.month < b.month || (a.month == b.month && a.day < b.day)))
  }

  function NextDay(d: Date): (r: Date)
    requires Valid(d)
    ensures Valid(r)
  {
    if d.day < MonthLength(d.year, d.month) then d.(day := d.day + 1)
    else if d.month < 12 then Date(d.year, d.month + 1, 1)
    else Date(d.year + 1, 1, 1)
  }

  function PrevDay(d: Date): (r: Date)
    requires Valid(d)
    ensures Valid(r) && Before(r, d) && NextDay(r) == d
  {
    if d.day > 1 then d.(day := d.day - 1)
    else if d.month > 1 then Date(d.year, d.month - 1, MonthLength(d.year, d.month - 1))
    else Date(d.year - 1, 12, 31)
  }

  function AddDays(d: Date, n: int): (r: Date)
    requires Valid(d)
    ensures Valid(r)
    decreases if n < 0 then -n else n
  {
    if n == 0 then d else if n > 0 then AddDays(NextDay(d), n - 1) else AddDays(PrevDay(d), n + 1)
  }

  /** The day c of month k, or its last day if the month is shorter; a day below 1 counts back from the first. */
  function AtMonth(k: int, c: int): (d: Date)
    ensures Valid(d) && (c >= 1 ==> MonthIndex(d.year, d.month) == k)
  {
    if c >= 1 then Date(k / 12, k % 12 + 1, if c < Len(k) then c else Len(k)) else AddDays(First(k), c - 1)
  }

  lemma IndexFirst(d: Date)
    requires Valid(d)
    ensures First(MonthIndex(d.year, d.month)) == d.(day := 1)
    ensures Len(MonthIndex(d.year, d.month)) == MonthLength(d.year, d.month)
  {
  }

  lemma {:induction false} AddDaysInMonth(d: Date, n: nat)
    requires Valid(d) && d.day + n <= MonthLength(d.year, d.month)
    ensures AddDays(d, n) == d.(day := d.day + n)
    decreases n
  {
    if n > 0 {
      AddDaysInMonth(NextDay(d), n - 1);
    }
  }

  lemma FirstPlus(k: int, c: int)
    requires 1 <= c <= Len(k)
    ensures AddDays(First(k), c - 1) == AtMonth(k, c)
  {
    AddDaysInMonth(First(k), c - 1);
  }

  /** The day before the first of the next month is the last day of the month. */
  lemma LastOfMonth(k: int)
    ensures AddDays(First(k + 1), -1) == PrevDay(First(k + 1)) == First(k).(day := Len(k))
  {
    hide MonthLength;
    var d := First(k + 1);
    assert AddDays(PrevDay(d), 0) == PrevDay(d);
  }

  lemma {:induction false} AddDaysBack(d: Date, n: int)
    requires Valid(d) && n > 0
    ensures Before(AddDays(d, -n), d)
    decreases n
  {
    if n > 1 {
      AddDaysBack(PrevDay(d), n - 1);
    }
  }

  lemma BeforeByMonth(a: Date, b: Date)
    requires Valid(a) && Valid(b)
    ensures Before(a, b) <==> (MonthIndex(a.year, a.month) < MonthIndex(b.year, b.month)
                               || (MonthIndex(a.year, a.month) == MonthIndex(b.year, b.month) && a.day < b.day))
  {
  }

  /** A day below 1 leads before the first of its month. */
  lemma AtMonthBelowOne(k: int, c: int)
    requires c < 1
    ensures Before(AtMonth(k, c), First(k)) && MonthIndex(AtMonth(k, c).year, AtMonth(k, c).month) < k
  {
    AddDaysBack(First(k), 1 - c);
    BeforeByMonth(AtMonth(k, c), First(k));
  }

  lemma PrevDayMonotone(a: Date, b: Date)
    requires Valid(a) && Valid(b) && Before(a, b)
    ensures Before(PrevDay(a), PrevDay(b)) && !Before(PrevDay(b), a)
  {
  }

  lemma {:induction false} AddDaysMonotone(a: Date, b: Date, n: int)
    requires n >= 0 && Valid(a) && Valid(b) && Before(a, b)
    ensures Before(AddDays(a, -n), AddDays(b, -n))
    decreases n
  {
    if n > 0 {
      PrevDayMonotone(a, b);
      AddDaysMonotone(PrevDay(a), PrevDay(b), n - 1);
    }
  }

  lemma {:induction false} AddDaysIntoMonth(d: Date, n: int)
    requires Valid(d) && 0 <= n < d.day
    ensures AddDays(d, -n) == d.(day := d.day - n)
    decreases n
  {
    if n > 0 {
      AddDaysIntoMonth(PrevDay(d), n - 1);
    }
  }

  /** Days below 1 reach back into the month before: c = 0 is its last day. */
  lemma AtNextMonth(k: int, c: int)
    requires 1 - Len(k) <= c < 1
    ensures AtMonth(k + 1, c) == First(k).(day := Len(k) + c)
  {
    LastOfMonth(k);
    var last := PrevDay(First(k + 1));
    AddDaysIntoMonth(last, -c);
    assert AtMonth(k + 1, c) == AddDays(last, c);
  }

  lemma AtMonthMonotone(j: int, k: int, c: int)
    requires j < k
    ensures Before(AtMonth(j, c), AtMonth(k, c))
  {
    if c >= 1 {
      BeforeByMonth(AtMonth(j, c), AtMonth(k, c));
    } else {
      BeforeByMonth(First(j), First(k));
      AddDaysMonotone(First(j), First(k), 1 - c);
    }
  }

  // ---------- Days counted ----------

  /** The days since 1 March of year 0 in closed form: years start in March, so leap days come last. */
  function DayNumber(d: Date): int {
    var y, m := if d.month <= 2 then d.year - 1 else d.year, if d.month <= 2 then d.month + 9 else d.month - 3;
    365 * y + y / 4 - y / 100 + y / 400 + (153 * m + 2) / 5 + d.day - 1
  }

  /** Stepping to the next day counts one more day, across months, years and leap days. */
  lemma NextDayCounts(d: Date)
    requires Valid(d)
    ensures DayNumber(NextDay(d)) == DayNumber(d) + 1
  {
    var y := d.year;
    if d.month == 2 {
      LeapSteps(y);
    }
  }

  lemma LeapSteps(y: int)
    ensures y / 4 - (y - 1) / 4 == (if y % 4 == 0 then 1 else 0)
    ensures y / 100 - (y - 1) / 100 == (if y % 100 == 0 then 1 else 0)
    ensures y / 400 - (y - 1) / 400 == (if y % 400 == 0 then 1 else 0)
    ensures y % 400 == 0 ==> y % 100 == 0
    ensures y % 100 == 0 ==> y % 4 == 0
  {
  }

  lemma {:induction false} AddDaysCounts(d: Date, n: int)
    requires Valid(d)
    ensures DayNumber(AddDays(d, n)) == DayNumber(d) + n
    decreases if n < 0 then -n else n
  {
    hide DayNumber, NextDay, PrevDay;
    if n > 0 {
      NextDayCounts(d);
      AddDaysCounts(NextDay(d), n - 1);
    } else if n < 0 {
      NextDayCounts(PrevDay(d));
      AddDaysCounts(PrevDay(d), n + 1);
    }
  }

  lemma DayInMonth(d: Date)
    requires Valid(d)
    ensures var k := MonthIndex(d.year, d.month);
            DayNumber(d) == DayNumber(First(k)) + d.day - 1 && 1 <= d.day <= Len(k)
  {
    IndexFirst(d);
  }

  lemma MonthCounts(k: int)
    ensures DayNumber(First(k + 1)) == DayNumber(First(k)) + Len(k)
  {
    LastOfMonth(k);
    NextDayCounts(PrevDay(First(k + 1)));
    hide DayNumber, MonthLength, PrevDay, NextDay, Len;
    DayInMonth(First(k).(day := Len(k)));
  }

  lemma {:induction false} FirstsAscend(j: int, k: int)
    requires j < k
    ensures DayNumber(First(j)) + Len(j) <= DayNumber(First(k))
    decreases k - j
  {
    hide DayNumber, First, Len;
    MonthCounts(k - 1);
    if j < k - 1 {
      FirstsAscend(j, k - 1);
    }
  }

  lemma MonthsDecide(a: Date, b: Date)
    requires Valid(a) && Valid(b) && MonthIndex(a.year, a.month) < MonthIndex(b.year, b.month)
    ensures Before(a, b) && DayNumber(a) < DayNumber(b)
  {
    hide DayNumber, MonthIndex, First, Len, Before;
    BeforeByMonth(a, b);
    FirstsAscend(MonthIndex(a.year, a.month), MonthIndex(b.year, b.month));
    DayInMonth(a);
    DayInMonth(b);
  }

  lemma DaysDecide(a: Date, b: Date)
    requires Valid(a) && Valid(b) && MonthIndex(a.year, a.month) == MonthIndex(b.year, b.month)
    ensures a.year == b.year && a.month == b.month
    ensures Before(a, b) <==> a.day < b.day
    ensures DayNumber(a) - a.day == DayNumber(b) - b.day
  {
    hide DayNumber;
    DayInMonth(a);
    DayInMonth(b);
  }

  /** The order of dates is the order of their day numbers, and no two dates share one. */
  lemma BeforeCounts(a: Date, b: Date)
    requires Valid(a) && Valid(b)
    ensures Before(a, b) <==> DayNumber(a) < DayNumber(b)
    ensures a == b <==> DayNumber(a) == DayNumber(b)
  {
    hide DayNumber, MonthIndex, Before;
    var j, k := MonthIndex(a.year, a.month), MonthIndex(b.year, b.month);
    if j < k {
      MonthsDecide(a, b);
    } else if k < j {
      MonthsDecide(b, a);
      NotBothBefore(a, b);
    } else {
      DaysDecide(a, b);
    }
  }

  lemma NotBothBefore(a: Date, b: Date)
    ensures Before(a, b) ==> !Before(b, a)
  {
  }
}
