/** `periodWindow`: the UTC day or calendar month that contains an instant. */
module Calendar {

  /** Microseconds since 0001-01-01T00:00:00Z, the zero of Go's `time.Time`. */
  type Time = nat

  const DAY: nat := 86_400_000_000

  datatype Period = Daily | Monthly
  datatype Window = Window(start: Time, end: Time) {
    predicate Contains(t: Time) { start <= t < end }
  }

  predicate IsLeap(year: nat) {
    year % 4 == 0 && (year % 100 != 0 || year % 400 == 0)
  }

  /** Days in month `m`, counting months from January of year 1. */
  function MonthLength(m: nat): (days: nat)
    ensures 28 <= days <= 31
  {
    var month := m % 12;
    if month == 1 then (if IsLeap(m / 12 + 1) then 29 else 28)
    else if month == 3 || month == 5 || month == 8 || month == 10 then 30
    else 31
  }

  /** Days from the epoch to the first day of month `m`. */
  function MonthStart(m: nat): nat {
    if m == 0 then 0 else MonthStart(m - 1) + MonthLength(m - 1)
  }

  /** The month, at or after `m`, that contains day number `day`. */
  function MonthOf(day: nat, m: nat): (r: nat)
    requires MonthStart(m) <= day
    ensures MonthStart(r) <= day < MonthStart(r + 1)
    decreases day - MonthStart(m)
  {
    if day < MonthStart(m + 1) then m else MonthOf(day, m + 1)
  }

  function PeriodWindow(now: Time, period: Period): (w: Window)
    ensures w.Contains(now)
  {
    var day := now / DAY;
    match period
    case Daily => Window(day * DAY, (day + 1) * DAY)
    case Monthly =>
      var m := MonthOf(day, 0);
      Window(MonthStart(m) * DAY, MonthStart(m + 1) * DAY)
  }

  lemma {:induction false} MonthStartMonotone(a: nat, b: nat)
    requires a < b
    ensures MonthStart(a + 1) <= MonthStart(b)
    decreases b
  {
    if a + 1 < b { MonthStartMonotone(a, b - 1); }
  }

  lemma Fourth(y: nat)
    ensures (y + 1) / 4 == y / 4 + if (y + 1) % 4 == 0 then 1 else 0
  {
  }

  lemma Hundredth(y: nat)
    ensures (y + 1) / 100 == y / 100 + if (y + 1) % 100 == 0 then 1 else 0
    ensures y % 100 == 0 ==> y % 4 == 0
  {
    if y % 100 == 0 { assert y == 4 * (25 * (y / 100)); }
  }

  lemma FourHundredth(y: nat)
    ensures (y + 1) / 400 == y / 400 + if (y + 1) % 400 == 0 then 1 else 0
    ensures y % 400 == 0 ==> y % 100 == 0
  {
    if y % 400 == 0 { assert y == 100 * (4 * (y / 400)); }
  }

  /** Leap days before the year after `years` years: every fourth year, but not every hundredth, but every four hundredth. */
  function LeapDays(years: nat): int {
    years / 4 - years / 100 + years / 400
  }

  lemma NextLeapDay(years: nat)
    ensures LeapDays(years + 1) == LeapDays(years) + if IsLeap(years + 1) then 1 else 0
  {
    Fourth(years);
    Hundredth(years);
    Hundredth(years + 1);
    FourHundredth(years);
    FourHundredth(years + 1);
  }

  /** January of year `years + 1` starts after the days of the years before it: the Gregorian rule in closed form. */
  lemma {:induction false} YearStarts(years: nat)
    ensures MonthStart(12 * years) == 365 * years + LeapDays(years)
  {
    if years > 0 {
      YearStarts(years - 1);
      NextLeapDay(years - 1);
      NextYear(years - 1, 12 * (years - 1));
    }
  }

  lemma NextYear(years: nat, january: nat)
    requires january == 12 * years
    ensures MonthStart(january + 12) == MonthStart(january) + 365 + if IsLeap(years + 1) then 1 else 0
  {
    MonthsOfYear(january, 12);
  }

  /** Days of a common year before each of its months, and before the next January. */
  const DAYS_BEFORE: seq<nat> := [0, 31, 59, 90, 120, 151, 181, 212, 243, 273, 304, 334, 365]

  lemma {:induction false} MonthsOfYear(january: nat, i: nat)
    requires january % 12 == 0 && i <= 12
    ensures MonthStart(january + i) == MonthStart(january) + DAYS_BEFORE[i] + if i >= 2 && IsLeap(january / 12 + 1) then 1 else 0
  {
    if i > 0 {
      MonthsOfYear(january, i - 1);
      NextMonth(january, i - 1);
    }
  }

  /** Thirty days hath September. */
  lemma NextMonth(january: nat, i: nat)
    requires january % 12 == 0 && i < 12
    ensures MonthStart(january + i + 1)
            == MonthStart(january + i) + DAYS_BEFORE[i + 1] - DAYS_BEFORE[i] + if i == 1 && IsLeap(january / 12 + 1) then 1 else 0
  {
    assert (january + i) % 12 == i && (january + i) / 12 == january / 12;
  }

  /** The window of a day is the 24 hours from its midnight; that of a month runs from its first day to the next month's. */
  lemma WindowBounds(now: Time, period: Period)
    ensures var w := PeriodWindow(now, period);
            && w.start <= now < w.end
            && w.start % 86_400_000_000 == 0
            && (period == Daily ==> w.end == w.start + 86_400_000_000)
            && (period == Monthly ==> exists m: nat ::
                  w.start == MonthStart(m) * 86_400_000_000 && w.end == MonthStart(m + 1) * 86_400_000_000)
  {
  }

  /** Windows of one period tile the time line: two of them coincide or do not meet. */
  lemma WindowsTile(t: Time, u: Time, period: Period)
    ensures PeriodWindow(t, period) == PeriodWindow(u, period)
         || PeriodWindow(t, period).end <= PeriodWindow(u, period).start
         || PeriodWindow(u, period).end <= PeriodWindow(t, period).start
  {
    var d, e := t / DAY, u / DAY;
    match period
    case Daily =>
      if d < e { assert (d + 1) * DAY <= e * DAY; }
      if e < d { assert (e + 1) * DAY <= d * DAY; }
    case Monthly =>
      var m, n := MonthOf(d, 0), MonthOf(e, 0);
      if m < n { MonthStartMonotone(m, n); assert MonthStart(m + 1) * DAY <= MonthStart(n) * DAY; }
      if n < m { MonthStartMonotone(n, m); assert MonthStart(n + 1) * DAY <= MonthStart(m) * DAY; }
  }
}
