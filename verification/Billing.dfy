/** Billing periods: the Go computation, its SQL twin, and the periods of the budget resume. */
module Billing {
  import opened Calendar

  // ---------- Go ----------

  function MinInt(a: int, b: int): int { if a < b then a else b }

  /** time.Date with out-of-range months and days carried over. */
  function GoDate(year: int, month: int, day: int): (d: Date)
    ensures Valid(d)
  {
    AddDays(First(MonthIndex(year, month)), day - 1)
  }

  function DaysIn(year: int, month: int): int {
    GoDate(year, month + 1, 0).day
  }

  function ShiftMonths(d: Date, n: int, cutoffDay: int): Date {
    var m0 := d.month + n - 1;
    var yearsBack := if m0 < 0 then (-m0 + 11) / 12 else 0;
    var m1 := m0 + yearsBack * 12;
    var targetYear := d.year - yearsBack + m1 / 12;
    var targetMonth := m1 % 12 + 1;
    GoDate(targetYear, targetMonth, MinInt(cutoffDay, DaysIn(targetYear, targetMonth)))
  }

  function ComputeBillingPeriodStart(today: Date, cutoffDay: int, billingPeriodMonths: int): Date {
    var months := if billingPeriodMonths < 1 then 1 else billingPeriodMonths;
    var cutoff := if cutoffDay < 1 then 1 else cutoffDay;
    var clampedDay := MinInt(cutoff, DaysIn(today.year, today.month));
    var periodStart :=
      if today.day >= clampedDay then GoDate(today.year, today.month, clampedDay)
      else
        var prevMonth := if today.month - 1 < 1 then 12 else today.month - 1;
        var prevYear := if today.month - 1 < 1 then today.year - 1 else today.year;
        GoDate(prevYear, prevMonth, MinInt(cutoff, DaysIn(prevYear, prevMonth)));
    if months > 1 then ShiftMonths(periodStart, -(months - 1), cutoff) else periodStart
  }

  // ---------- SQL ----------

  function DateTrunc(d: Date): Date { d.(day := 1) }

  /** Adding an interval of months to the first of a month. */
  function PlusMonths(d: Date, n: int): (r: Date)
    ensures Valid(r)
  {
    First(MonthIndex(d.year, d.month) + n)
  }

  function SingleStart(today: Date, cutoff: int): (d: Date)
    requires Valid(today)
    ensures Valid(d)
  {
    var first := DateTrunc(today);
    var clamped := MinInt(cutoff, AddDays(PlusMonths(first, 1), -1).day);
    if today.day >= clamped then AddDays(first, clamped - 1)
    else AddDays(PlusMonths(first, -1), MinInt(cutoff, AddDays(first, -1).day) - 1)
  }

  /** The period_start column of the periods query. */
  function SqlPeriodStart(today: Date, cutoff: int, months: int): Date
    requires Valid(today)
  {
    if months == 0 then Date(1900, 1, 1)
    else if months <= 1 then SingleStart(today, cutoff)
    else
      var base := PlusMonths(DateTrunc(SingleStart(today, cutoff)), -(months - 1));
      AddDays(base, MinInt(cutoff, AddDays(PlusMonths(base, 1), -1).day) - 1)
  }

  // ---------- Both in terms of month indices ----------

  lemma DaysInIsLength(year: int, month: int)
    ensures DaysIn(year, month) == Len(MonthIndex(year, month))
  {
    LastOfMonth(MonthIndex(year, month));
  }

  lemma GoDateClamped(year: int, month: int, c: int)
    ensures GoDate(year, month, MinInt(c, DaysIn(year, month))) == AtMonth(MonthIndex(year, month), c)
  {
    DaysInIsLength(year, month);
    if c >= 1 {
      FirstPlus(MonthIndex(year, month), MinInt(c, DaysIn(year, month)));
    }
  }

  /** Shifting is moving the month index and clamping again, for every cutoff day. */
  lemma ShiftIsAtMonth(d: Date, n: int, c: int)
    ensures ShiftMonths(d, n, c) == AtMonth(MonthIndex(d.year, d.month) + n, c)
  {
    hide GoDate, DaysIn, AtMonth;
    var m0 := d.month + n - 1;
    var yearsBack := if m0 < 0 then (-m0 + 11) / 12 else 0;
    var m1 := m0 + yearsBack * 12;
    var y, m := d.year - yearsBack + m1 / 12, m1 % 12 + 1;
    assert MonthIndex(y, m) == MonthIndex(d.year, d.month) + n;
    GoDateClamped(y, m, c);
  }

  /** The month in which the one-month period containing today starts. */
  function StartMonth(today: Date, c: int): int
    requires Valid(today)
  {
    var k := MonthIndex(today.year, today.month);
    if Before(today, AtMonth(k, c)) then k - 1 else k
  }

  function AtLeastOne(n: int): int { if n < 1 then 1 else n }

  /** Cutoff days below 1 start the period where day 1 does. */
  lemma StartMonthClamped(today: Date, c: int)
    requires Valid(today)
    ensures StartMonth(today, AtLeastOne(c)) == StartMonth(today, c)
  {
    if c < 1 {
      var k := MonthIndex(today.year, today.month);
      AtMonthBelowOne(k, c);
      BeforeByMonth(today, AtMonth(k, c));
      BeforeByMonth(today, AtMonth(k, 1));
    }
  }

  lemma StartIsAtMonth(today: Date, cutoffDay: int, months: int)
    requires Valid(today)
    ensures ComputeBillingPeriodStart(today, cutoffDay, months) ==
            AtMonth(StartMonth(today, cutoffDay) - (AtLeastOne(months) - 1), AtLeastOne(cutoffDay))
  {
    hide AddDays, ShiftMonths, GoDate, AtMonth;
    var c, n := AtLeastOne(cutoffDay), AtLeastOne(months);
    StartMonthClamped(today, cutoffDay);
    OneMonthStart(today, c);
    ShiftIsAtMonth(AtMonth(StartMonth(today, c), c), -(n - 1), c);
  }

  /** The branch on whether the cutoff of the current month has been reached. */
  lemma OneMonthStart(today: Date, c: int)
    requires Valid(today) && c >= 1
    ensures ComputeBillingPeriodStart(today, c, 1) == AtMonth(StartMonth(today, c), c)
  {
    hide AddDays, GoDate;
    var k := MonthIndex(today.year, today.month);
    IndexFirst(today);
    DaysInIsLength(today.year, today.month);
    BeforeByMonth(today, AtMonth(k, c));
    GoDateClamped(today.year, today.month, c);
    GoDateClamped(today.year, today.month - 1, c);
    GoDateClamped(today.year - 1, 12, c);
  }

  /** The clamped day counted from the first of a month, as the SQL writes it. */
  lemma ClampedDay(k: int, c: int)
    ensures AddDays(First(k), MinInt(c, AddDays(First(k + 1), -1).day) - 1) == AtMonth(k, c)
  {
    LastOfMonth(k);
    if c >= 1 {
      FirstPlus(k, MinInt(c, Len(k)));
    }
  }

  /** The SQL test for having reached the cutoff of the current month. */
  lemma CutoffReached(today: Date, c: int)
    requires Valid(today)
    ensures var k := MonthIndex(today.year, today.month); Before(today, AtMonth(k, c)) <==> today.day < MinInt(c, Len(k))
  {
    var k := MonthIndex(today.year, today.month);
    IndexFirst(today);
    BeforeByMonth(today, AtMonth(k, c));
    if c < 1 {
      AtMonthBelowOne(k, c);
    }
  }

  lemma SingleStartByIndex(today: Date, c: int)
    requires Valid(today)
    ensures var k := MonthIndex(today.year, today.month);
            var clamped := MinInt(c, AddDays(First(k + 1), -1).day);
            SingleStart(today, c) ==
            if today.day >= clamped then AddDays(First(k), clamped - 1)
            else AddDays(First(k - 1), MinInt(c, AddDays(First(k), -1).day) - 1)
  {
    hide AddDays;
    IndexFirst(today);
  }

  lemma SingleStartIsAtMonth(today: Date, c: int)
    requires Valid(today)
    ensures SingleStart(today, c) == AtMonth(StartMonth(today, c), c)
  {
    var k := MonthIndex(today.year, today.month);
    hide AddDays, AtMonth, Before, Len, MonthLength, SingleStart, First;
    SingleStartByIndex(today, c);
    LastOfMonth(k);
    CutoffReached(today, c);
    ClampedDay(k, c);
    ClampedDay(k - 1, c);
  }

  /** The SQL start for every cutoff day and period length: longer periods reach back from the month that
      the one-month start lies in. */
  lemma SqlStartIsAtMonth(today: Date, c: int, months: int)
    requires Valid(today)
    ensures var single := AtMonth(StartMonth(today, c), c);
            SqlPeriodStart(today, c, months) ==
            if months == 0 then Date(1900, 1, 1)
            else if months <= 1 then single
            else AtMonth(MonthIndex(single.year, single.month) - (months - 1), c)
  {
    hide AddDays, SingleStart, StartMonth, AtMonth;
    SingleStartIsAtMonth(today, c);
    var single := SingleStart(today, c);
    ClampedDay(MonthIndex(single.year, single.month) - (months - 1), c);
  }

  /** For every date and every nonzero period length the SQL expression and the Go function give the same
      start exactly if the cutoff day is at least 1. */
  lemma SqlMatchesGo(today: Date, cutoff: int, months: int)
    requires Valid(today) && months != 0
    ensures SqlPeriodStart(today, cutoff, months) == ComputeBillingPeriodStart(today, cutoff, months) <==> cutoff >= 1
  {
    hide SqlPeriodStart, ComputeBillingPeriodStart, StartMonth, AtMonth;
    StartIsAtMonth(today, cutoff, months);
    SqlStartIsAtMonth(today, cutoff, months);
    if cutoff < 1 {
      var k := StartMonth(today, cutoff);
      var single := AtMonth(k, cutoff);
      var j := if months <= 1 then k else MonthIndex(single.year, single.month) - (months - 1);
      AtMonthBelowOne(k, cutoff);
      TooEarly(j, k - (AtLeastOne(months) - 1), cutoff);
    }
  }

  lemma TooEarly(j: int, k: int, c: int)
    requires c < 1 && j <= k
    ensures Before(AtMonth(j, c), AtMonth(k, 1))
  {
    AtMonthBelowOne(j, c);
    BeforeByMonth(AtMonth(j, c), AtMonth(k, 1));
  }

  /** The day that a month shows for a cutoff day: that day, or the month's last one. */
  predicate Clamped(d: Date, c: int)
    requires 1 <= d.month <= 12
  {
    d.day == c || (d.day == MonthLength(d.year, d.month) && d.day < c)
  }

  /** The computed start is a civil date on the cutoff day, or on the last day of a month too short for it. */
  lemma StartDay(today: Date, cutoffDay: int, months: int)
    requires Valid(today)
    ensures var start := ComputeBillingPeriodStart(today, cutoffDay, months);
            Valid(start) && Clamped(start, if cutoffDay < 1 then 1 else cutoffDay)
  {
    StartIsAtMonth(today, cutoffDay, months);
    hide ComputeBillingPeriodStart, StartMonth;
    var start := ComputeBillingPeriodStart(today, cutoffDay, months);
    IndexFirst(start);
  }

  /** A shift moves the month by exactly n and clamps to the cutoff day again. */
  lemma ShiftDay(d: Date, n: int, c: int)
    requires c >= 1
    ensures var r := ShiftMonths(d, n, c);
            Valid(r) && 12 * r.year + r.month == 12 * d.year + d.month + n && Clamped(r, c)
  {
    ShiftIsAtMonth(d, n, c);
    hide ShiftMonths;
    IndexFirst(ShiftMonths(d, n, c));
  }

  // ---------- Algebra of shifting ----------

  /** Shifts under one cutoff day compose additively exactly if the cutoff day is at least 1: below it every
      shift also slips back by at least a month. */
  lemma ShiftComposes(d: Date, a: int, b: int, c: int)
    ensures ShiftMonths(ShiftMonths(d, a, c), b, c) == ShiftMonths(d, a + b, c) <==> c >= 1
  {
    hide ShiftMonths;
    var k, mid := MonthIndex(d.year, d.month), ShiftMonths(d, a, c);
    ShiftIsAtMonth(d, a, c);
    ShiftIsAtMonth(mid, b, c);
    ShiftIsAtMonth(d, a + b, c);
    if c < 1 {
      AtMonthBelowOne(k + a, c);
      AtMonthMonotone(MonthIndex(mid.year, mid.month) + b, k + a + b, c);
    }
  }

  lemma ShiftMonotone(d: Date, a: int, b: int, c: int)
    ensures Before(ShiftMonths(d, a, c), ShiftMonths(d, b, c)) <==> a < b
  {
    hide ShiftMonths, AtMonth;
    var k := MonthIndex(d.year, d.month);
    ShiftIsAtMonth(d, a, c);
    ShiftIsAtMonth(d, b, c);
    if a < b {
      AtMonthMonotone(k + a, k + b, c);
    } else if b < a {
      AtMonthMonotone(k + b, k + a, c);
    }
  }

  predicate Within(d: Date, start: Date, end: Date) { !Before(d, start) && Before(d, end) }

  /** Cutoff days below 1 end the period before the month does. */
  predicate Contained(today: Date, c: int)
    requires Valid(today)
  {
    c >= 1 || today.day < MonthLength(today.year, today.month) + c
  }

  lemma TodayInStartMonth(today: Date, c: int)
    requires Valid(today)
    ensures !Before(today, AtMonth(StartMonth(today, c), c))
    ensures Before(today, AtMonth(StartMonth(today, c) + 1, c)) <==> Contained(today, c)
  {
    var k := MonthIndex(today.year, today.month);
    BeforeByMonth(today, AtMonth(k - 1, c));
    BeforeByMonth(today, AtMonth(k + 1, c));
    if c < 1 {
      TodayBelowOne(today, c);
    }
  }

  lemma TodayBelowOne(today: Date, c: int)
    requires Valid(today) && c < 1
    ensures var k := MonthIndex(today.year, today.month);
            StartMonth(today, c) == k && !Before(today, AtMonth(k, c)) &&
            (Before(today, AtMonth(k + 1, c)) <==> today.day < MonthLength(today.year, today.month) + c)
  {
    var k := MonthIndex(today.year, today.month);
    IndexFirst(today);
    AtMonthBelowOne(k, c);
    BeforeByMonth(today, AtMonth(k, c));
    if c >= 1 - Len(k) {
      AtNextMonth(k, c);
    } else {
      AtNextMonth(k, 1 - Len(k));
      FartherBack(First(k + 1), Len(k), 1 - c);
      hide AtMonth;
      BeforeTransitive(AtMonth(k + 1, c), First(k), today);
    }
  }

  lemma {:induction false} FartherBack(d: Date, m: int, n: int)
    requires Valid(d) && 0 <= m < n
    ensures Before(AddDays(d, -n), AddDays(d, -m))
    decreases m
  {
    if m == 0 {
      AddDaysBack(d, n);
    } else {
      FartherBack(PrevDay(d), m - 1, n - 1);
    }
  }

  /** Shifting the computed start by n months leads n - (months - 1) months past today's start month. */
  lemma ShiftedStart(today: Date, c: int, months: int, n: int)
    requires Valid(today) && months >= 1
    ensures ShiftMonths(ComputeBillingPeriodStart(today, c, months), n, c) == AtMonth(StartMonth(today, c) - (months - 1) + n, c)
  {
    hide ShiftMonths, ComputeBillingPeriodStart, StartMonth;
    StartIsAtMonth(today, c, months);
    ShiftIsAtMonth(ComputeBillingPeriodStart(today, c, months), n, c);
  }

  /** The computed start never lies after today. */
  lemma StartNotAfterToday(today: Date, c: int, months: int)
    requires Valid(today) && months >= 1
    ensures !Before(today, ComputeBillingPeriodStart(today, c, months))
  {
    hide ShiftMonths, ComputeBillingPeriodStart, StartMonth, AtMonth;
    var j, c1 := StartMonth(today, c), AtLeastOne(c);
    StartIsAtMonth(today, c, months);
    StartMonthClamped(today, c);
    TodayInStartMonth(today, c1);
    if months > 1 {
      AtMonthMonotone(j - (months - 1), j, c1);
      if Before(today, AtMonth(j - (months - 1), c1)) {
        BeforeTransitive(today, AtMonth(j - (months - 1), c1), AtMonth(j, c1));
      }
    }
  }

  /** Today lies in the period that starts at the computed date, and in the last of its months, exactly if
      the cutoff day is at least 1 or today is more than the missing days before the end of its month. */
  lemma PeriodContainsToday(today: Date, c: int, months: int)
    requires Valid(today) && months >= 1
    ensures var start := ComputeBillingPeriodStart(today, c, months);
            && (Within(today, start, ShiftMonths(start, months, c)) <==> Contained(today, c))
            && (Within(today, ShiftMonths(start, months - 1, c), ShiftMonths(start, months, c)) <==> Contained(today, c))
  {
    hide ShiftMonths, ComputeBillingPeriodStart, StartMonth, AtMonth;
    var j := StartMonth(today, c);
    StartNotAfterToday(today, c, months);
    TodayInStartMonth(today, c);
    ShiftedStart(today, c, months, months - 1);
    ShiftedStart(today, c, months, months);
    assert j - (months - 1) + (months - 1) == j && j - (months - 1) + months == j + 1;
  }

  /** Today lies in the last month of the period that starts at this date. */
  predicate InLastMonth(today: Date, start: Date, months: int, c: int) {
    Within(today, ShiftMonths(start, months - 1, c), ShiftMonths(start, months, c))
  }

  lemma UniqueAt(today: Date, c: int, months: int, n: int)
    requires Valid(today) && c >= 1 && months >= 1
    ensures InLastMonth(today, ShiftMonths(ComputeBillingPeriodStart(today, c, months), n, c), months, c) <==> n == 0
  {
    hide ShiftMonths, ComputeBillingPeriodStart, StartMonth, AtMonth, Before;
    var j, current := StartMonth(today, c), ComputeBillingPeriodStart(today, c, months);
    TodayInStartMonth(today, c);
    ShiftComposes(current, n, months - 1, c);
    ShiftComposes(current, n, months, c);
    ShiftedStart(today, c, months, n + (months - 1));
    ShiftedStart(today, c, months, n + months);
    assert j - (months - 1) + (n + (months - 1)) == j + n && j - (months - 1) + (n + months) == j + n + 1;
    OnlyMonth(today, c, j, n);
  }

  lemma OnlyMonth(today: Date, c: int, j: int, n: int)
    requires Within(today, AtMonth(j, c), AtMonth(j + 1, c))
    ensures Within(today, AtMonth(j + n, c), AtMonth(j + n + 1, c)) <==> n == 0
  {
    hide AtMonth;
    if n > 1 {
      AtMonthMonotone(j + 1, j + n, c);
    } else if n < -1 {
      AtMonthMonotone(j + n + 1, j, c);
    }
  }

  /** The start shifted by no months is the only one with today in its last month, exactly if the cutoff day
      is at least 1: below it, not even that start is. */
  lemma PeriodIsUnique(today: Date, c: int, months: int)
    requires Valid(today) && months >= 1
    ensures (forall n: int :: InLastMonth(today, ShiftMonths(ComputeBillingPeriodStart(today, c, months), n, c), months, c) <==> n == 0)
            <==> c >= 1
  {
    hide ShiftMonths, ComputeBillingPeriodStart, InLastMonth;
    var current := ComputeBillingPeriodStart(today, c, months);
    if c >= 1 {
      forall n: int ensures InLastMonth(today, ShiftMonths(current, n, c), months, c) <==> n == 0 {
        UniqueAt(today, c, months, n);
      }
    } else {
      NotEvenItself(today, c, months);
    }
  }

  lemma NotEvenItself(today: Date, c: int, months: int)
    requires Valid(today) && months >= 1 && c < 1
    ensures !InLastMonth(today, ShiftMonths(ComputeBillingPeriodStart(today, c, months), 0, c), months, c)
  {
    hide ShiftMonths, ComputeBillingPeriodStart, StartMonth;
    var j := StartMonth(today, c);
    var start := ShiftMonths(ComputeBillingPeriodStart(today, c, months), 0, c);
    ShiftedStart(today, c, months, 0);
    AtMonthBelowOne(j - (months - 1), c);
    ShiftIsAtMonth(start, months, c);
    TodayInStartMonth(today, c);
    var q := MonthIndex(start.year, start.month) + months;
    hide AtMonth;
    if q < j {
      AtMonthMonotone(q, j, c);
      BeforeTransitive(AtMonth(q, c), AtMonth(j, c), today);
    }
  }

  // ---------- The periods of the budget resume ----------

  datatype Period = Period(start: Date, end: Date)

  /** As many periods as fit into twelve months, but at least one. */
  function MaxPeriods(months: int): (n: nat)
    requires months >= 1
    ensures n == 1 || (n > 1 && n * months <= 12)
    ensures (n + 1) * months > 12
  {
    assert 12 / months * months <= 12 < (12 / months + 1) * months;
    if 12 / months < 1 then 1 else 12 / months
  }

  /** The start after i steps back from the current one. */
  function PastStart(current: Date, months: int, c: int, i: nat): Date {
    if i == 0 then current else ShiftMonths(PastStart(current, months, c, i - 1), -months, c)
  }

  /** The i-th completed period before the current one. */
  function PastPeriod(current: Date, months: int, c: int, i: nat): Period {
    var start := PastStart(current, months, c, i + 1);
    Period(start, ShiftMonths(start, months, c))
  }

  lemma StepsBack(d: Date, months: int, c: int)
    requires Valid(d) && months >= 1
    ensures Before(ShiftMonths(d, -months, c), d)
  {
    hide ShiftMonths;
    var k := MonthIndex(d.year, d.month);
    ShiftIsAtMonth(d, -months, c);
    if c < 1 {
      AtMonthBelowOne(k - months, c);
    }
    BeforeByMonth(AtMonth(k - months, c), d);
  }

  /** The loop collects periods backwards until the budget did not exist yet or the cap is hit. Its
      no-progress break is dead code, whatever the cutoff day. */
  method ResumePeriods(today: Date, c: int, months: int, created: Date) returns (periods: seq<Period>)
    requires Valid(today) && months >= 1
    ensures var current := ComputeBillingPeriodStart(today, c, months);
            && |periods| <= MaxPeriods(months)
            && (forall i :: 0 <= i < |periods| ==> periods[i] == PastPeriod(current, months, c, i))
            && (forall i :: 0 <= i < |periods| ==> !Before(periods[i].start, created))
            && (|periods| < MaxPeriods(months) ==> Before(PastPeriod(current, months, c, |periods|).start, created))
  {
    hide ShiftMonths, ComputeBillingPeriodStart;
    var current := ComputeBillingPeriodStart(today, c, months);
    StartIsAtMonth(today, c, months);
    periods := [];
    var prevStart := current;
    for i := 0 to MaxPeriods(months)
      invariant |periods| == i && prevStart == PastStart(current, months, c, i) && Valid(prevStart)
      invariant forall k :: 0 <= k < |periods| ==> periods[k] == PastPeriod(current, months, c, k)
      invariant forall k :: 0 <= k < |periods| ==> !Before(periods[k].start, created)
    {
      var lastStart := prevStart;
      StepsBack(prevStart, months, c);
      ShiftIsAtMonth(prevStart, -months, c);
      prevStart := ShiftMonths(prevStart, -months, c);
      if !Before(prevStart, lastStart) {
        assert false;
        break;
      }
      var prevEnd := ShiftMonths(prevStart, months, c);
      if Before(prevStart, created) {
        break;
      }
      periods := periods + [Period(prevStart, prevEnd)];
    }
  }

  predicate InPast(current: Date, months: int, c: int, i: nat, d: Date) {
    Within(d, PastPeriod(current, months, c, i).start, PastPeriod(current, months, c, i).end)
  }

  /** Every date from the start of the oldest of n periods up to the current start lies in one of them,
      and no date lies in two. */
  ghost predicate Tiles(current: Date, months: int, c: int) {
    && (forall n: nat, d: Date :: Within(d, PastStart(current, months, c, n), current) ==> Covered(current, months, c, n, d))
    && (forall d: Date, i: nat, j: nat :: InPast(current, months, c, i, d) && InPast(current, months, c, j, d) ==> i == j)
  }

  ghost predicate Covered(current: Date, months: int, c: int, n: nat, d: Date) {
    exists i: nat :: i < n && InPast(current, months, c, i, d)
  }

  lemma {:induction false} PastIndex(current: Date, months: int, c: int, i: nat)
    requires c >= 1 && Valid(current)
    ensures var d := PastStart(current, months, c, i);
            Valid(d) && MonthIndex(d.year, d.month) == MonthIndex(current.year, current.month) - i * months
    ensures i > 0 ==> PastStart(current, months, c, i) == AtMonth(MonthIndex(current.year, current.month) - i * months, c)
  {
    hide ShiftMonths, AtMonth;
    if i > 0 {
      PastIndex(current, months, c, i - 1);
      ShiftIsAtMonth(PastStart(current, months, c, i - 1), -months, c);
      assert (i - 1) * months + months == i * months;
    }
  }

  /** With a proper cutoff day each period ends where the next one starts. */
  lemma PeriodsMeet(current: Date, months: int, c: int, i: nat)
    requires c >= 1 && months >= 1 && Valid(current) && ShiftMonths(current, 0, c) == current
    ensures PastPeriod(current, months, c, i).end == PastStart(current, months, c, i)
    ensures Before(PastStart(current, months, c, i + 1), PastStart(current, months, c, i))
  {
    hide ShiftMonths, AtMonth;
    var k := MonthIndex(current.year, current.month);
    PastIndex(current, months, c, i);
    PastIndex(current, months, c, i + 1);
    StepsBack(PastStart(current, months, c, i), months, c);
    ShiftIsAtMonth(PastStart(current, months, c, i + 1), months, c);
    ShiftIsAtMonth(current, 0, c);
    assert k - (i + 1) * months + months == k - i * months;
  }

  lemma {:induction false} CoveredBack(current: Date, months: int, c: int, n: nat, d: Date)
    requires c >= 1 && months >= 1 && Valid(current) && ShiftMonths(current, 0, c) == current
    requires Within(d, PastStart(current, months, c, n), current)
    ensures Covered(current, months, c, n, d)
    decreases n
  {
    hide ShiftMonths, Before;
    if n > 0 {
      PeriodsMeet(current, months, c, n - 1);
      if Before(d, PastStart(current, months, c, n - 1)) {
        assert InPast(current, months, c, n - 1, d);
      } else {
        CoveredBack(current, months, c, n - 1, d);
        var i: nat :| i < n - 1 && InPast(current, months, c, i, d);
        assert i < n;
      }
    }
  }

  lemma {:induction false} StartsDescend(current: Date, months: int, c: int, i: nat, j: nat)
    requires c >= 1 && months >= 1 && Valid(current) && ShiftMonths(current, 0, c) == current && i < j
    ensures Before(PastStart(current, months, c, j), PastStart(current, months, c, i))
    decreases j
  {
    hide ShiftMonths, PastStart;
    PeriodsMeet(current, months, c, j - 1);
    if i < j - 1 {
      StartsDescend(current, months, c, i, j - 1);
      BeforeTransitive(PastStart(current, months, c, j), PastStart(current, months, c, j - 1), PastStart(current, months, c, i));
    }
  }

  lemma Disjoint(current: Date, months: int, c: int, i: nat, j: nat, d: Date)
    requires c >= 1 && months >= 1 && Valid(current) && ShiftMonths(current, 0, c) == current && i < j
    requires InPast(current, months, c, i, d)
    ensures !InPast(current, months, c, j, d)
  {
    hide ShiftMonths, PastStart;
    PeriodsMeet(current, months, c, j);
    if i + 1 < j {
      StartsDescend(current, months, c, i + 1, j);
    }
    var end, start := PastPeriod(current, months, c, j).end, PastPeriod(current, months, c, i).start;
    if Before(d, end) && end != start {
      BeforeTransitive(d, end, start);
    }
  }

  /** Below 1, even the first completed period ends before the current one starts. */
  lemma GapBelowOne(current: Date, months: int, c: int)
    requires c < 1 && months >= 1 && Valid(current)
    ensures Before(PastPeriod(current, months, c, 0).end, current)
  {
    hide ShiftMonths;
    var k := MonthIndex(current.year, current.month);
    assert PastStart(current, months, c, 0) == current;
    var start := PastStart(current, months, c, 1);
    ShiftIsAtMonth(current, -months, c);
    AtMonthBelowOne(k - months, c);
    var q := MonthIndex(start.year, start.month) + months;
    ShiftIsAtMonth(start, months, c);
    AtMonthBelowOne(q, c);
    hide AtMonth;
    BeforeByMonth(AtMonth(q, c), current);
  }

  /** The completed periods tile the time before the current period exactly if the cutoff day is at least 1. */
  lemma PastPeriodsTile(today: Date, c: int, months: int)
    requires Valid(today) && months >= 1
    ensures Tiles(ComputeBillingPeriodStart(today, c, months), months, c) <==> c >= 1
  {
    hide ShiftMonths, ComputeBillingPeriodStart, InPast, Covered;
    var current := ComputeBillingPeriodStart(today, c, months);
    StartIsAtMonth(today, c, months);
    if c >= 1 {
      ShiftNothing(today, c, months);
      forall n: nat, d: Date | Within(d, PastStart(current, months, c, n), current) ensures Covered(current, months, c, n, d) {
        CoveredBack(current, months, c, n, d);
      }
      forall d: Date, i: nat, j: nat | InPast(current, months, c, i, d) && InPast(current, months, c, j, d) ensures i == j {
        if i < j {
          Disjoint(current, months, c, i, j, d);
        } else if j < i {
          Disjoint(current, months, c, j, i, d);
        }
      }
    } else {
      DayBeforeUncovered(current, months, c);
    }
  }

  /** The day before the current period belongs to no completed one. */
  lemma DayBeforeUncovered(current: Date, months: int, c: int)
    requires c < 1 && months >= 1 && Valid(current)
    ensures Within(PrevDay(current), PastStart(current, months, c, 1), current)
    ensures !Covered(current, months, c, 1, PrevDay(current))
  {
    hide ShiftMonths;
    var d := PrevDay(current);
    assert PastStart(current, months, c, 0) == current;
    GapBelowOne(current, months, c);
    StepsBack(current, months, c);
    ShiftIsAtMonth(current, -months, c);
    ShiftIsAtMonth(PastStart(current, months, c, 1), months, c);
    PrevDayMonotone(PastStart(current, months, c, 1), current);
    PrevDayMonotone(PastPeriod(current, months, c, 0).end, current);
    assert !InPast(current, months, c, 0, d);
  }

  /** A period start is already clamped, so shifting it by nothing changes nothing. */
  lemma ShiftNothing(today: Date, c: int, months: int)
    requires Valid(today) && c >= 1 && months >= 1
    ensures var current := ComputeBillingPeriodStart(today, c, months);
            ShiftMonths(current, 0, c) == current
  {
    hide ShiftMonths, ComputeBillingPeriodStart;
    StartIsAtMonth(today, c, months);
    ShiftIsAtMonth(ComputeBillingPeriodStart(today, c, months), 0, c);
  }

  /** With cutoff day 0 and one-month periods, every completed period is empty. */
  lemma EmptyAtZero(current: Date, i: nat)
    requires Valid(current)
    ensures PastPeriod(current, 1, 0, i).start == PastPeriod(current, 1, 0, i).end
  {
    hide ShiftMonths;
    var last := PastStart(current, 1, 0, i);
    var k := MonthIndex(last.year, last.month);
    ShiftIsAtMonth(last, -1, 0);
    AtNextMonth(k - 2, 0);
    ShiftIsAtMonth(PastStart(current, 1, 0, i + 1), 1, 0);
  }

  lemma BeforeTransitive(a: Date, b: Date, c: Date)
    requires Before(a, b) && !Before(c, b)
    ensures Before(a, c)
  {
  }
}
