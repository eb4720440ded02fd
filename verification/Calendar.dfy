/** The proleptic Gregorian calendar in UTC, and the bucket floors built on it. */
module Calendar {

  // ---------- dates ----------

  datatype Date = Date(year: int, month: int, day: int)

  predicate IsLeap(y: int) {
    y % 4 == 0 && (y % 100 != 0 || y % 400 == 0)
  }

  function DaysInMonth(y: int, m: int): int {
    if m == 2 then (if IsLeap(y) then 29 else 28)
    else if m == 4 || m == 6 || m == 9 || m == 11 then 30
    else 31
  }

  predicate IsDate(d: Date) {
    1 <= d.month <= 12 && 1 <= d.day <= DaysInMonth(d.year, d.month)
  }

  /** The calendar itself, a day at a time. */
  function NextDay(d: Date): Date {
    if d.day < DaysInMonth(d.year, d.month) then Date(d.year, d.month, d.day + 1)
    else if d.month < 12 then Date(d.year, d.month + 1, 1)
    else Date(d.year + 1, 1, 1)
  }

  // ---------- day numbers ----------

  /** Days from 0000-01-01 to the first day of year `y`. */
  function YearStart(y: int): int {
    365 * y + (y - 1) / 4 - (y - 1) / 100 + (y - 1) / 400 + 1
  }

  function CommonMonthStart(m: int): int {
    if m == 3 then 59 else if m == 4 then 90 else if m == 5 then 120 else if m == 6 then 151
    else if m == 7 then 181 else if m == 8 then 212 else if m == 9 then 243 else if m == 10 then 273
    else if m == 11 then 304 else 334
  }

  /** Days from the first of January to the first of month `m`. */
  function MonthStart(y: int, m: int): int {
    var leapDay := if IsLeap(y) then 1 else 0;
    if m == 1 then 0
    else if m == 2 then 31
    else leapDay + CommonMonthStart(m)
  }

  const EPOCH_DAY := 719528

  /** Days since 1970-01-01. */
  function DayNumber(d: Date): int {
    YearStart(d.year) + MonthStart(d.year, d.month) + d.day - 1 - EPOCH_DAY
  }

  lemma OneMoreMultiple(y: int, k: int)
    requires k > 0
    ensures y / k - (y - 1) / k == if y % k == 0 then 1 else 0
  {
    var q, r := (y - 1) / k, (y - 1) % k;
    assert y - 1 == k * q + r;
    if r == k - 1 {
      assert y == k * (q + 1);
      assert y / k == q + 1 && y % k == 0 by { QuotientIs(y, k, q + 1, 0); }
    } else {
      assert y / k == q && y % k == r + 1 by { QuotientIs(y, k, q, r + 1); }
    }
  }

  lemma QuotientIs(y: int, k: int, q: int, r: int)
    requires 0 <= r < k && y == k * q + r
    ensures y / k == q && y % k == r
  {
    var d := y / k - q;
    assert k * d == r - y % k;
    assert d >= 1 ==> k * d >= k;
    assert d <= -1 ==> k * d <= -k;
  }

  lemma YearLength(y: int)
    ensures YearStart(y + 1) - YearStart(y) == if IsLeap(y) then 366 else 365
  {
    OneMoreMultiple(y, 4);
    OneMoreMultiple(y, 100);
    OneMoreMultiple(y, 400);
    assert y % 400 == 0 ==> y % 100 == 0;
    assert y % 100 == 0 ==> y % 4 == 0;
  }

  lemma MonthLength(y: int, m: int)
    requires 1 <= m < 12
    ensures MonthStart(y, m + 1) == MonthStart(y, m) + DaysInMonth(y, m)
  {
  }

  /** Day numbers count the days of the calendar, and 1970-01-01 is day 0. */
  lemma DayNumberCounts(d: Date)
    requires IsDate(d)
    ensures IsDate(NextDay(d)) && DayNumber(NextDay(d)) == DayNumber(d) + 1
    ensures DayNumber(Date(1970, 1, 1)) == 0
  {
    YearLength(d.year);
    if d.month < 12 {
      MonthLength(d.year, d.month);
    }
  }

  predicate Earlier(a: Date, b: Date) {
    a.year < b.year || (a.year == b.year && (a.month < b.month || (a.month == b.month && a.day < b.day)))
  }

  lemma {:induction false} YearStartsApart(a: int, b: int)
    requires a < b
    ensures YearStart(a) + (if IsLeap(a) then 366 else 365) <= YearStart(b)
    decreases b - a
  {
    YearLength(b - 1);
    if a < b - 1 {
      YearStartsApart(a, b - 1);
    }
  }

  lemma {:induction false} MonthStartsApart(y: int, a: int, b: int)
    requires 1 <= a < b <= 12
    ensures MonthStart(y, a) + DaysInMonth(y, a) <= MonthStart(y, b)
    decreases b - a
  {
    MonthLength(y, b - 1);
    if a < b - 1 {
      MonthStartsApart(y, a, b - 1);
    }
  }

  lemma DayOfYearBounds(d: Date)
    requires IsDate(d)
    ensures 0 <= MonthStart(d.year, d.month) + d.day - 1 < if IsLeap(d.year) then 366 else 365
  {
    if d.month < 12 {
      MonthStartsApart(d.year, d.month, 12);
    }
  }

  /** Day numbers grow with dates, so no two dates share one. */
  lemma DayNumberMonotone(a: Date, b: Date)
    requires IsDate(a) && IsDate(b)
    ensures Earlier(a, b) ==> DayNumber(a) < DayNumber(b)
    ensures DayNumber(a) == DayNumber(b) ==> a == b
  {
    DayOfYearBounds(a);
    DayOfYearBounds(b);
    if a.year != b.year {
      YearStartsApart(if a.year < b.year then a.year else b.year, if a.year < b.year then b.year else a.year);
    } else if a.month != b.month {
      MonthStartsApart(a.year, if a.month < b.month then a.month else b.month,
                       if a.month < b.month then b.month else a.month);
    }
  }

  // ---------- dates of day numbers ----------

  /** The year that contains day `n`, counted from 0000-01-01: an estimate, corrected by at most one. */
  function YearOf(n: int): int {
    var y := 400 * n / 146097;
    if n < YearStart(y) then y - 1 else if n >= YearStart(y + 1) then y + 1 else y
  }

  lemma YearOfContains(n: int)
    ensures YearStart(YearOf(n)) <= n < YearStart(YearOf(n) + 1)
  {
    var y := 400 * n / 146097;
    assert 146097 * y <= 400 * n < 146097 * y + 146097;
    YearStartBounds(y - 1);
    YearStartBounds(y);
    YearStartBounds(y + 1);
    YearStartBounds(y + 2);
  }

  lemma YearStartBounds(y: int)
    ensures 146097 * y - 400 < 400 * YearStart(y) < 146097 * y + 800
  {
  }

  function MonthOf(y: int, dayOfYear: int, m: int): int
    requires 1 <= m <= 12
    decreases 12 - m
  {
    if m == 12 || dayOfYear < MonthStart(y, m + 1) then m else MonthOf(y, dayOfYear, m + 1)
  }

  lemma {:induction false} MonthOfContains(y: int, dayOfYear: int, m: int)
    requires 1 <= m <= 12 && MonthStart(y, m) <= dayOfYear < if IsLeap(y) then 366 else 365
    ensures var k := MonthOf(y, dayOfYear, m);
            m <= k <= 12 && 0 <= dayOfYear - MonthStart(y, k) < DaysInMonth(y, k)
    decreases 12 - m
  {
    if m < 12 {
      MonthLength(y, m);
      if dayOfYear >= MonthStart(y, m + 1) {
        MonthOfContains(y, dayOfYear, m + 1);
      }
    }
  }

  /** The civil date of a day number. */
  function DateOf(n: int): Date {
    var y := YearOf(n + EPOCH_DAY);
    var dayOfYear := n + EPOCH_DAY - YearStart(y);
    var m := MonthOf(y, dayOfYear, 1);
    Date(y, m, dayOfYear - MonthStart(y, m) + 1)
  }

  lemma DateOfDayNumber(n: int)
    ensures IsDate(DateOf(n)) && DayNumber(DateOf(n)) == n
  {
    var y := YearOf(n + EPOCH_DAY);
    YearOfContains(n + EPOCH_DAY);
    YearLength(y);
    MonthOfContains(y, n + EPOCH_DAY - YearStart(y), 1);
  }

  lemma DateOfIsDate(n: int)
    ensures IsDate(DateOf(n))
  {
    DateOfDayNumber(n);
  }

  /** Civil conversion is a bijection between dates and day numbers. */
  lemma DayNumberOfDate(d: Date)
    requires IsDate(d)
    ensures DateOf(DayNumber(d)) == d
  {
    DateOfDayNumber(DayNumber(d));
    DayNumberMonotone(DateOf(DayNumber(d)), d);
  }

  /** Day 0 is 1970-01-01, and leap days are where the Gregorian calendar has them. */
  lemma KnownDates()
    ensures DateOf(0) == Date(1970, 1, 1) && DateOf(11017) == Date(2000, 3, 1) && DateOf(19782) == Date(2024, 2, 29)
    ensures IsDate(Date(2000, 2, 29)) && IsDate(Date(2024, 2, 29))
    ensures !IsDate(Date(1900, 2, 29)) && !IsDate(Date(2023, 2, 29))
  {
    DayNumberOfDate(Date(1970, 1, 1));
    DayNumberOfDate(Date(2000, 3, 1));
    DayNumberOfDate(Date(2024, 2, 29));
  }

  // ---------- floors ----------

  const HOUR := 3600
  const DAY := 86400
  const WEEK := 604800

  /** The day that contains second `t`. */
  function DayAt(t: int): int {
    t / DAY
  }

  function DateAt(t: int): Date {
    DateOf(DayAt(t))
  }

  function Midnight(d: Date): int {
    DayNumber(d) * DAY
  }

  function FloorHour(t: int): int {
    Midnight(DateAt(t)) + (t % DAY) / HOUR * HOUR
  }

  function FloorDay(t: int): int {
    Midnight(DateAt(t))
  }

  function FloorMonth(t: int): int {
    Midnight(Date(DateAt(t).year, DateAt(t).month, 1))
  }

  /** 1970-01-01 was a Thursday, three days after a Monday. */
  function DaysSinceMonday(n: int): int {
    (n + 3) % 7
  }

  function FloorWeek(t: int): int {
    Midnight(DateOf(DayAt(t) - DaysSinceMonday(DayAt(t))))
  }

  lemma HourByDivision(t: int)
    ensures FloorHour(t) == t - t % HOUR
  {
    DateOfDayNumber(DayAt(t));
    HourArithmetic(t);
  }

  lemma HourArithmetic(t: int)
    ensures DayAt(t) * DAY + (t % DAY) / HOUR * HOUR == t - t % HOUR
  {
    assert t == DayAt(t) * DAY + t % DAY;
    assert t == (24 * DayAt(t) + (t % DAY) / HOUR) * HOUR + (t % DAY) % HOUR;
  }

  lemma DayByDivision(t: int)
    ensures FloorDay(t) == t - t % DAY
  {
    DateOfDayNumber(DayAt(t));
  }

  lemma WeekByDivision(t: int)
    ensures FloorWeek(t) == t - (t + 3 * DAY) % WEEK
  {
    DateOfDayNumber(DayAt(t) - DaysSinceMonday(DayAt(t)));
    WeekArithmetic(t);
  }

  lemma WeekArithmetic(t: int)
    ensures (DayAt(t) - DaysSinceMonday(DayAt(t))) * DAY == t - (t + 3 * DAY) % WEEK
  {
    var n, r := DayAt(t), t % DAY;
    var w := (n + 3) / 7;
    assert t == n * DAY + r;
    assert n + 3 == 7 * w + DaysSinceMonday(n);
    assert t + 3 * DAY == w * WEEK + (DaysSinceMonday(n) * DAY + r);
    assert (t + 3 * DAY) % WEEK == DaysSinceMonday(n) * DAY + r;
  }

  /** Rebuilding a civil time from its parts is the same as dropping the smaller units. */
  lemma FloorsByDivision(t: int)
    ensures FloorHour(t) == t - t % HOUR
    ensures FloorDay(t) == t - t % DAY
    ensures FloorWeek(t) == t - (t + 3 * DAY) % WEEK
  {
    HourByDivision(t);
    DayByDivision(t);
    WeekByDivision(t);
  }

  lemma HourTruncation(s: int, t: int)
    requires s <= t
    ensures s - s % HOUR <= t - t % HOUR <= t && (t - t % HOUR) % HOUR == 0
  {
  }

  lemma DayTruncation(s: int, t: int)
    requires s <= t
    ensures s - s % DAY <= t - t % DAY <= t && (t - t % DAY) % DAY == 0
  {
  }

  lemma HourQuotient(t: int, hour: int)
    requires HOUR * hour <= t < HOUR * (hour + 1)
    ensures t - t % HOUR == HOUR * hour
  {
  }

  lemma WeekQuotient(t: int, week: int)
    requires WEEK * week <= t + 3 * DAY < WEEK * (week + 1)
    ensures t - (t + 3 * DAY) % WEEK == WEEK * week - 3 * DAY
  {
  }

  lemma DayQuotient(t: int, day: int)
    requires DAY * day <= t < DAY * (day + 1)
    ensures t - t % DAY == DAY * day
  {
  }

  lemma WeekTruncation(s: int, t: int)
    requires s <= t
    ensures s - (s + 3 * DAY) % WEEK <= t - (t + 3 * DAY) % WEEK <= t
    ensures (t - (t + 3 * DAY) % WEEK + 3 * DAY) % WEEK == 0
  {
  }

  lemma MidnightDay(d: Date)
    ensures DayAt(Midnight(d)) == DayNumber(d)
  {
  }

  /** The date of a month floor is the first of the month of its argument. */
  lemma MonthFloorDate(t: int)
    ensures IsDate(DateAt(t)) && FloorMonth(t) <= t
    ensures DateAt(FloorMonth(t)) == Date(DateAt(t).year, DateAt(t).month, 1)
  {
    var first := Date(DateAt(t).year, DateAt(t).month, 1);
    DateOfDayNumber(DayAt(t));
    MidnightDay(first);
    DayNumberOfDate(first);
  }

  lemma MonthFloorMonotone(s: int, t: int)
    requires s <= t
    ensures FloorMonth(s) <= FloorMonth(t)
  {
    MonthFloorDate(s);
    MonthFloorDate(t);
    var a, b := DateAt(s), DateAt(t);
    DateOfDayNumber(DayAt(s));
    DateOfDayNumber(DayAt(t));
    DayNumberMonotone(b, a);
    assert !Earlier(b, a);
    DayNumberMonotone(Date(a.year, a.month, 1), Date(b.year, b.month, 1));
  }

  lemma HourIdempotent(t: int)
    ensures FloorHour(FloorHour(t)) == FloorHour(t)
  {
    var b := FloorHour(t);
    HourTruncation(t, t);
    HourByDivision(t);
    HourByDivision(b);
  }

  lemma HourIsFloor(s: int, t: int)
    requires s <= t
    ensures FloorHour(s) <= FloorHour(t) <= t
    ensures FloorHour(FloorHour(t)) == FloorHour(t)
  {
    HourTruncation(s, t);
    HourByDivision(s);
    HourByDivision(t);
    HourIdempotent(t);
  }

  lemma DayIdempotent(t: int)
    ensures FloorDay(FloorDay(t)) == FloorDay(t)
  {
    var b := FloorDay(t);
    DayTruncation(t, t);
    DayByDivision(t);
    DayByDivision(b);
  }

  lemma DayIsFloor(s: int, t: int)
    requires s <= t
    ensures FloorDay(s) <= FloorDay(t) <= t
    ensures FloorDay(FloorDay(t)) == FloorDay(t)
  {
    DayTruncation(s, t);
    DayByDivision(s);
    DayByDivision(t);
    DayIdempotent(t);
  }

  lemma WeekIdempotent(t: int)
    ensures FloorWeek(FloorWeek(t)) == FloorWeek(t)
  {
    var b := FloorWeek(t);
    WeekTruncation(t, t);
    WeekByDivision(t);
    WeekByDivision(b);
  }

  lemma WeekIsFloor(s: int, t: int)
    requires s <= t
    ensures FloorWeek(s) <= FloorWeek(t) <= t
    ensures FloorWeek(FloorWeek(t)) == FloorWeek(t)
  {
    WeekTruncation(s, t);
    WeekByDivision(s);
    WeekByDivision(t);
    WeekIdempotent(t);
  }

  lemma MonthIsFloor(s: int, t: int)
    requires s <= t
    ensures FloorMonth(s) <= FloorMonth(t) <= t
    ensures FloorMonth(FloorMonth(t)) == FloorMonth(t)
  {
    MonthFloorMonotone(s, t);
    MonthFloorDate(t);
    var first := FloorMonth(t);
    MonthFloorDate(first);
  }

  /** Every floor is at most its argument, monotone and idempotent. */
  lemma FloorsAreFloors(s: int, t: int)
    requires s <= t
    ensures FloorHour(s) <= FloorHour(t) <= t && FloorDay(s) <= FloorDay(t) <= t
    ensures FloorWeek(s) <= FloorWeek(t) <= t && FloorMonth(s) <= FloorMonth(t) <= t
    ensures FloorHour(FloorHour(t)) == FloorHour(t) && FloorDay(FloorDay(t)) == FloorDay(t)
    ensures FloorWeek(FloorWeek(t)) == FloorWeek(t) && FloorMonth(FloorMonth(t)) == FloorMonth(t)
  {
    HourIsFloor(s, t);
    DayIsFloor(s, t);
    WeekIsFloor(s, t);
    MonthIsFloor(s, t);
  }

  lemma SameDay(s: int, t: int)
    requires DayAt(s) == DayAt(t)
    ensures FloorDay(s) == FloorDay(t) && FloorWeek(s) == FloorWeek(t) && FloorMonth(s) == FloorMonth(t)
  {
  }

  /** Coarser floors do not see the finer ones. */
  lemma FloorsNest(t: int)
    ensures FloorDay(FloorHour(t)) == FloorDay(t)
    ensures FloorWeek(FloorDay(t)) == FloorWeek(t)
    ensures FloorMonth(FloorDay(t)) == FloorMonth(t)
  {
    var h, d := FloorHour(t), FloorDay(t);
    HourByDivision(t);
    DayByDivision(t);
    assert DayAt(t - t % HOUR) == DayAt(t) && DayAt(t - t % DAY) == DayAt(t);
    SameDay(h, t);
    SameDay(d, t);
  }

  /** A week starts on a Monday and holds its seconds. */
  lemma WeekContains(t: int)
    ensures DaysSinceMonday(DayAt(FloorWeek(t))) == 0 && FloorWeek(t) <= t < FloorWeek(t) + WEEK
  {
    WeekByDivision(t);
    MondayArithmetic(t);
  }

  lemma MondayArithmetic(t: int)
    ensures var monday := t - (t + 3 * DAY) % WEEK;
            DaysSinceMonday(DayAt(monday)) == 0 && monday <= t < monday + WEEK
  {
    WeekArithmetic(t);
    var n := DayAt(t) - DaysSinceMonday(DayAt(t));
    assert n * DAY / DAY == n && (n + 3) % 7 == 0;
  }

  /** A month starts on its first and holds its seconds. */
  lemma MonthContains(t: int)
    ensures DateAt(FloorMonth(t)).day == 1
    ensures FloorMonth(t) <= t < FloorMonth(t) + DaysInMonth(DateAt(t).year, DateAt(t).month) * DAY
  {
    var n, d := DayAt(t), DateAt(t);
    MonthFloorDate(t);
    DateOfDayNumber(n);
    assert DayNumber(Date(d.year, d.month, 1)) == n - (d.day - 1);
    assert t < n * DAY + DAY;
  }
}
