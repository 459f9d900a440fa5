/** Wall-clock time in a time zone, as the routine parser turns it into a moment.

    A zone is its offset: milliseconds east of UTC at each moment. Nothing is
    known of it but that offsets are whole minutes and under a day.
 */
module Zone {
  import opened Calendar

  const MINUTE := 60_000
  const HOUR := 3_600_000
  const DAY := 86_400_000

  datatype Clock = Clock(hour: int, minute: int)
  /** `weekday` counts from Sunday. */
  datatype Wall = Wall(date: Date, clock: Clock, weekday: int)

  type Offset = int -> int

  ghost predicate IsZone(off: Offset) {
    forall t :: off(t) % MINUTE == 0 && -DAY < off(t) < DAY
  }

  predicate IsClock(c: Clock) {
    0 <= c.hour < 24 && 0 <= c.minute < 60
  }

  // --- dates and moments ------------------------------------------------------

  /** `Date.UTC`: months and days past their end run on into the next. */
  function DateUtc(d: Date, c: Clock): int {
    var first := Date(d.year + (d.month - 1) / 12, (d.month - 1) % 12 + 1, 1);
    (DayNumber(first) + d.day - 1) * DAY + c.hour * HOUR + c.minute * MINUTE
  }

  /** A day past the end of its month, or a month past the end of its year, is that many days or months
      on; so every date in digits is some day. */
  lemma DatesRunOn(d: Date, c: Clock)
    ensures DateUtc(Date(d.year, d.month, d.day + 1), c) == DateUtc(d, c) + DAY
    ensures DateUtc(Date(d.year, d.month + 12, d.day), c) == DateUtc(Date(d.year + 1, d.month, d.day), c)
    ensures DateUtc(Date(d.year, d.month + 1, 1), c)
         == DateUtc(Date(d.year, d.month, 1), c)
            + DaysInMonth(d.year + (d.month - 1) / 12, (d.month - 1) % 12 + 1) * DAY
  {
    DayRunsOn(d, c);
    YearRunsOn(d, c);
    NextMonthRunsOn(d.year, d.month, c);
    hide DateUtc, DaysInMonth;
  }

  lemma DayRunsOn(d: Date, c: Clock)
    ensures DateUtc(Date(d.year, d.month, d.day + 1), c) == DateUtc(d, c) + DAY
  {
    hide DayNumber;
  }

  lemma YearRunsOn(d: Date, c: Clock)
    ensures DateUtc(Date(d.year, d.month + 12, d.day), c) == DateUtc(Date(d.year + 1, d.month, d.day), c)
  {
    MonthsGoRound(d.month);
    assert d.month + 12 - 1 == d.month + 11;
    hide DayNumber;
  }

  lemma NextMonthRunsOn(year: int, month: int, c: Clock)
    ensures DateUtc(Date(year, month + 1, 1), c)
         == DateUtc(Date(year, month, 1), c) + DaysInMonth(year + (month - 1) / 12, (month - 1) % 12 + 1) * DAY
  {
    MonthsGoRound(month);
    var y, m := year + (month - 1) / 12, (month - 1) % 12 + 1;
    MonthRunsOn(y, m);
    var y', m' := if m < 12 then y else y + 1, if m < 12 then m + 1 else 1;
    FirstOfMonth(year, month, y, m, c);
    FirstOfMonth(year, month + 1, y', m', c);
    hide DayNumber, DaysInMonth, DateUtc;
  }

  lemma FirstOfMonth(year: int, month: int, y: int, m: int, c: Clock)
    requires y == year + (month - 1) / 12 && m == (month - 1) % 12 + 1
    ensures DateUtc(Date(year, month, 1), c) == DayNumber(Date(y, m, 1)) * DAY + c.hour * HOUR + c.minute * MINUTE
  {
    hide DayNumber;
  }

  lemma MonthsGoRound(month: int)
    ensures (month + 11) / 12 == (month - 1) / 12 + 1 && (month + 11) % 12 == (month - 1) % 12
    ensures var m := (month - 1) % 12 + 1;
            if m < 12 then month / 12 == (month - 1) / 12 && month % 12 == m
            else month / 12 == (month - 1) / 12 + 1 && month % 12 == 0
  {
  }

  lemma MonthRunsOn(y: int, m: int)
    requires 1 <= m <= 12
    ensures DayNumber(if m < 12 then Date(y, m + 1, 1) else Date(y + 1, 1, 1))
         == DayNumber(Date(y, m, 1)) + DaysInMonth(y, m)
  {
    if m == 12 {
      YearSteps(y);
      WholeYear(y);
      LastMonth(y);
    }
    hide DayOfYearStart;
  }

  lemma LastMonth(y: int)
    ensures DaysInMonth(y, 12) == 31 && DaysBeforeMonth(y + 1, 1) == 0
  {
  }

  function WeekdayOf(days: int): int {
    (days + 4) % 7
  }

  /** The weekdays go round day by day from the epoch, a Thursday. */
  lemma WeekdaysGoRound(days: int)
    ensures WeekdayOf(DayNumber(Date(1970, 1, 1))) == 4
    ensures 0 <= WeekdayOf(days) < 7 && WeekdayOf(days + 1) == (WeekdayOf(days) + 1) % 7
  {
    Epoch();
  }

  function ClockOf(sinceMidnight: int): Clock {
    Clock(sinceMidnight / HOUR, sinceMidnight % HOUR / MINUTE)
  }

  /** The wall clock a zone shows at a moment, to the minute. */
  function WallClock(at: int, off: Offset): Wall {
    var local := at + off(at);
    Wall(CivilFromDays(local / DAY), ClockOf(local % DAY), WeekdayOf(local / DAY))
  }

  lemma DateUtcOfCivil(days: int, c: Clock)
    ensures DateUtc(CivilFromDays(days), c) == days * DAY + c.hour * HOUR + c.minute * MINUTE
  {
    CivilSuccessor(days);
    DaysRoundTrip(days);
    hide CivilFromDays;
    var d := CivilFromDays(days);
    assert (d.month - 1) / 12 == 0 && (d.month - 1) % 12 == d.month - 1;
  }

  function ToMinute(ms: int): int {
    ms - ms % MINUTE
  }

  lemma SplitDay(local: int)
    ensures var c := ClockOf(local % DAY);
            IsClock(c) && local / DAY * DAY + c.hour * HOUR + c.minute * MINUTE == ToMinute(local)
  {
    var days, rem := local / DAY, local % DAY;
    var h, m, s := rem / HOUR, rem % HOUR / MINUTE, rem % HOUR % MINUTE;
    assert rem == HOUR * h + rem % HOUR && rem % HOUR == MINUTE * m + s;
    var whole := 1440 * days + 60 * h + m;
    assert local == MINUTE * whole + s && 0 <= s < MINUTE;
    assert MINUTE * (local / MINUTE - whole) == s - local % MINUTE;
  }

  /** Reading the clock and writing it back loses only the seconds. */
  lemma SeenAsUtc(at: int, off: Offset)
    ensures var seen := WallClock(at, off);
            IsClock(seen.clock) && DateUtc(seen.date, seen.clock) == ToMinute(at + off(at))
  {
    hide CivilFromDays;
    var local := at + off(at);
    DateUtcOfCivil(local / DAY, ClockOf(local % DAY));
    SplitDay(local);
  }

  // --- two passes ---------------------------------------------------------------

  /** What two passes over the offset come to: the offset read at the first guess. */
  function TwoPass(off: Offset, asUtc: int): int {
    asUtc - off(asUtc - off(asUtc))
  }

  method WallClockToEpoch(date: Date, clock: Clock, off: Offset) returns (guess: int)
    requires IsZone(off)
    ensures guess == TwoPass(off, DateUtc(date, clock))
  {
    var asUtc := DateUtc(date, clock);
    WholeMinutes(date, clock);
    hide DateUtc, WallClock;
    guess := asUtc;
    for pass := 0 to 2
      invariant guess % MINUTE == 0
      invariant guess == if pass == 0 then asUtc else if pass == 1 then asUtc - off(asUtc) else TwoPass(off, asUtc)
    {
      var seen := WallClock(guess, off);
      SeenAsUtc(guess, off);
      assert off(guess) % MINUTE == 0;
      var seenAsUtc := DateUtc(seen.date, seen.clock);
      assert seenAsUtc == guess + off(guess);
      guess := guess + asUtc - seenAsUtc;
    }
  }

  lemma WholeMinutes(d: Date, c: Clock)
    ensures DateUtc(d, c) % MINUTE == 0
  {
    var first := Date(d.year + (d.month - 1) / 12, (d.month - 1) % 12 + 1, 1);
    var days := DayNumber(first) + d.day - 1;
    hide DayNumber;
    assert DateUtc(d, c) == MINUTE * (1440 * days + 60 * c.hour + c.minute);
  }

  /** Within a day of `asUtc` the offset is `a` before `change` and `b` from then on. */
  ghost predicate OneTransition(off: Offset, asUtc: int, change: int, a: int, b: int) {
    forall t :: asUtc - DAY <= t <= asUtc + DAY ==> off(t) == if t < change then a else b
  }

  /** `t` is a moment at which the zone shows the wall clock `asUtc` stands for. */
  predicate Shows(off: Offset, t: int, asUtc: int) {
    t + off(t) == asUtc
  }

  /** If any moment shows the time, the one returned does: hours that come twice included. */
  lemma FindsTheMoment(off: Offset, asUtc: int, change: int, a: int, b: int)
    requires IsZone(off) && OneTransition(off, asUtc, change, a, b)
    ensures Shows(off, TwoPass(off, asUtc), asUtc) <==> exists t :: Shows(off, t, asUtc)
  {
    assert -DAY < off(asUtc) < DAY;
    if t :| Shows(off, t, asUtc) {
      assert -DAY < off(t) < DAY;
      var first := asUtc - off(asUtc);
      assert -DAY < off(first) < DAY;
    }
  }

  /** A time in the gap is missed by exactly the gap: landing after it when the wall
      clock, read as UTC, is not before the change, and before it otherwise. */
  lemma GapIsMissedByItself(off: Offset, asUtc: int, change: int, a: int, b: int)
    requires IsZone(off) && OneTransition(off, asUtc, change, a, b)
    requires !exists t :: Shows(off, t, asUtc)
    ensures change + a <= asUtc < change + b
    ensures var r := TwoPass(off, asUtc);
            r + off(r) - asUtc == if asUtc >= change then b - a else a - b
  {
    var r := TwoPass(off, asUtc);
    assert -DAY < off(asUtc) < DAY;
    var first := asUtc - off(asUtc);
    assert -DAY < off(first) < DAY;
    assert -DAY < off(asUtc - DAY) < DAY && -DAY < off(asUtc + DAY) < DAY;
    assert !Shows(off, asUtc - off(asUtc - DAY), asUtc);
    assert !Shows(off, asUtc - off(asUtc + DAY), asUtc);
    assert asUtc - DAY < change <= asUtc + DAY;
    assert !Shows(off, asUtc - a, asUtc);
    assert !Shows(off, asUtc - b, asUtc);
  }

  /** "Lands on the hour after" is therefore what happens exactly when the wall clock
      is not before the change; always so where the zone was at or east of UTC. */
  lemma LandsAfterExactly(off: Offset, asUtc: int, change: int, a: int, b: int)
    requires IsZone(off) && OneTransition(off, asUtc, change, a, b)
    requires !exists t :: Shows(off, t, asUtc)
    ensures var r := TwoPass(off, asUtc);
            && (r + off(r) > asUtc <==> asUtc >= change)
            && (a >= 0 ==> asUtc >= change)
            && (b <= 0 ==> asUtc < change)
  {
    GapIsMissedByItself(off, asUtc, change, a, b);
  }

  /** New York's spring night, five hours west going to four: half past two does not
      exist there, and the moment returned shows half past one. */
  lemma NewYorkLandsBefore()
    ensures var off := t => if t < 7 * HOUR then -5 * HOUR else -4 * HOUR;
            var asUtc := 2 * HOUR + 30 * MINUTE;
            && (forall t :: !Shows(off, t, asUtc))
            && Shows(off, TwoPass(off, asUtc), HOUR + 30 * MINUTE)
  {
  }

  // --- days from today ------------------------------------------------------------

  /** The moment the zone shows `clock` on the day `daysOn` days after `from`. */
  function ClockOnDay(from: Date, daysOn: int, clock: Clock, off: Offset): int
    requires 1 <= from.month <= 12
  {
    TwoPass(off, DateUtc(CivilFromDays(DayNumber(from) + daysOn), clock))
  }

  /** The next such weekday at that time: this week's, or next week's if it has passed. */
  function NextWeekday(now: int, target: int, clock: Clock, off: Offset): int {
    var today := WallClock(now, off);
    CivilSuccessor((now + off(now)) / DAY);
    var ahead := (target - today.weekday + 7) % 7;
    var at := ClockOnDay(today.date, ahead, clock, off);
    if at <= now then ClockOnDay(today.date, ahead + 7, clock, off) else at
  }

  /** The day it is now, and the moment a clock time is `k` days on. */
  lemma OnDayFromNow(now: int, k: int, clock: Clock, off: Offset)
    ensures var days := (now + off(now)) / DAY;
            && Valid(WallClock(now, off).date) && DayNumber(WallClock(now, off).date) == days
            && ClockOnDay(WallClock(now, off).date, k, clock, off) == TwoPass(off,
                (days + k) * DAY + clock.hour * HOUR + clock.minute * MINUTE)
  {
    hide CivilFromDays, DayNumber, DateUtc, TwoPass, Tomorrow;
    var days := (now + off(now)) / DAY;
    CivilSuccessor(days);
    DaysRoundTrip(days);
    DateUtcOfCivil(days + k, clock);
    assert WallClock(now, off).date == CivilFromDays(days);
  }

  /** Four days on is always still to come, whatever the zone does. */
  lemma DaysOnIsLater(now: int, k: int, clock: Clock, off: Offset)
    requires IsZone(off) && IsClock(clock) && k >= 4
    ensures TwoPass(off, ((now + off(now)) / DAY + k) * DAY + clock.hour * HOUR + clock.minute * MINUTE) > now
  {
    var days := (now + off(now)) / DAY;
    var asUtc := (days + k) * DAY + clock.hour * HOUR + clock.minute * MINUTE;
    assert -DAY < off(asUtc - off(asUtc)) < DAY && -DAY < off(now) < DAY;
    assert now + off(now) < (days + 1) * DAY;
    assert asUtc >= (days + 4) * DAY;
  }

  predicate FallsOn(from: Date, daysOn: int, weekday: int)
    requires 1 <= from.month <= 12
  {
    WeekdayOf(DayNumber(from) + daysOn) == weekday
  }

  lemma OneInSeven(days: int, target: int, j: int)
    requires 0 <= target < 7
    ensures var ahead := (target - WeekdayOf(days) + 7) % 7;
            && WeekdayOf(days + ahead) == target && WeekdayOf(days + ahead + 7) == target
            && (0 <= j < ahead + 7 && WeekdayOf(days + j) == target ==> j == ahead)
  {
    var ahead := (target - WeekdayOf(days) + 7) % 7;
    var q := (days + j + 4) / 7 - (days + ahead + 4) / 7;
    if WeekdayOf(days + j) == target {
      assert j - ahead == 7 * q;
    }
  }

  /** "On <weekday> at <time>": in the future, on that weekday, and no day from today on
      that is that weekday and still to come is earlier. */
  lemma NextWeekdayIsEarliest(now: int, target: int, clock: Clock, off: Offset)
    requires IsZone(off) && IsClock(clock) && 0 <= target < 7
    ensures var today := WallClock(now, off).date;
            && Valid(today)
            && NextWeekday(now, target, clock, off) > now
            && exists k :: 0 <= k < 14 && FallsOn(today, k, target)
                 && NextWeekday(now, target, clock, off) == ClockOnDay(today, k, clock, off)
                 && forall j :: 0 <= j < k && FallsOn(today, j, target) ==> ClockOnDay(today, j, clock, off) <= now
  {
    hide CivilFromDays, DayNumber, ClockOnDay, TwoPass;
    var days := (now + off(now)) / DAY;
    var today := WallClock(now, off);
    var ahead := (target - today.weekday + 7) % 7;
    OnDayFromNow(now, ahead + 7, clock, off);
    DaysOnIsLater(now, ahead + 7, clock, off);
    OneInSeven(days, target, ahead);
    var k := if ClockOnDay(today.date, ahead, clock, off) <= now then ahead + 7 else ahead;
    assert NextWeekday(now, target, clock, off) == ClockOnDay(today.date, k, clock, off);
    assert FallsOn(today.date, k, target);
    forall j | 0 <= j < k && FallsOn(today.date, j, target) ensures ClockOnDay(today.date, j, clock, off) <= now {
      OneInSeven(days, target, j);
    }
  }

  lemma NextWeekdayIsAhead(now: int, target: int, clock: Clock, off: Offset)
    requires IsZone(off) && IsClock(clock) && 0 <= target < 7
    ensures NextWeekday(now, target, clock, off) > now
  {
    hide NextWeekday, WallClock, ClockOnDay, FallsOn, Valid;
    NextWeekdayIsEarliest(now, target, clock, off);
  }
}
