/** The Gregorian calendar as the desktop app and the routine parser use it.

    `CivilFromDays` is the branch-free arithmetic of personal.rs; `Tomorrow` is
    the calendar as people know it. The two are tied day by day, which fixes the
    arithmetic completely: one day matched to 1970-01-01, and every next day its
    successor.
 */
module Calendar {

  datatype Date = Date(year: int, month: int, day: int)

  // --- the calendar as people know it ---------------------------------------

  predicate IsLeap(y: int) {
    y % 4 == 0 && (y % 100 != 0 || y % 400 == 0)
  }

  function DaysInMonth(y: int, m: int): int {
    if m == 2 then (if IsLeap(y) then 29 else 28)
    else if m == 4 || m == 6 || m == 9 || m == 11 then 30
    else 31
  }

  function YearDays(y: int): int {
    if IsLeap(y) then 366 else 365
  }

  predicate Valid(d: Date) {
    1 <= d.month <= 12 && 1 <= d.day <= DaysInMonth(d.year, d.month)
  }

  function Tomorrow(d: Date): Date {
    if d.day < DaysInMonth(d.year, d.month) then Date(d.year, d.month, d.day + 1)
    else if d.month < 12 then Date(d.year, d.month + 1, 1)
    else Date(d.year + 1, 1, 1)
  }

  /** Strictly earlier, by year, then month, then day. */
  predicate Earlier(a: Date, b: Date) {
    a.year < b.year
    || (a.year == b.year && (a.month < b.month || (a.month == b.month && a.day < b.day)))
  }

  // --- the arithmetic -------------------------------------------------------

  /** Day 0 of the arithmetic is 0000-03-01; the epoch is this many days later. */
  const EPOCH_SHIFT := 719_468
  const DAYS_PER_ERA := 146_097

  function YearOfEra(doe: int): int {
    (doe - doe / 1460 + doe / 36_524 - doe / 146_096) / 365
  }

  /** Days of an era before its March-based year `yoe` begins. */
  function YearStart(yoe: int): int {
    365 * yoe + yoe / 4 - yoe / 100
  }

  /** The month and day of a day within a March-based year. */
  function MonthDay(doy: int): (int, int) {
    var mp := (5 * doy + 2) / 153;
    (if mp < 10 then mp + 3 else mp - 9, doy - (153 * mp + 2) / 5 + 1)
  }

  /** The date of a day given by era, March-based year of the era and day of that year. */
  function CivilOf(era: int, yoe: int, doy: int): Date {
    var (mo, d) := MonthDay(doy);
    var y := yoe + era * 400;
    Date(if mo <= 2 then y + 1 else y, mo, d)
  }

  function CivilInEra(era: int, doe: int): Date {
    var yoe := YearOfEra(doe);
    CivilOf(era, yoe, doe - YearStart(yoe))
  }

  function CivilFromDays(days: int): Date {
    var z := days + EPOCH_SHIFT;
    CivilInEra(z / DAYS_PER_ERA, z % DAYS_PER_ERA)
  }

  // --- the year of the era --------------------------------------------------

  /** Day `s` of the four-year group `g` of century `c` of an era. */
  lemma YearInGroup(c: int, g: int, s: int)
    requires 0 <= c < 4 && 0 <= g < 25 && 0 <= s < 1461 && (g == 24 && c < 3 ==> s < 1460)
    ensures var doe := 36_524 * c + 1461 * g + s;
            var leap := if 24 * c + g + s >= 1460 then 1 else 0;
            YearOfEra(doe) == 100 * c + 4 * g + (s - leap) / 365
  {
    var doe := 36_524 * c + 1461 * g + s;
    var leap := if 24 * c + g + s >= 1460 then 1 else 0;
    assert doe / 1460 == 25 * c + g + leap;
    if doe == 146_096 {
      assert c == 3 && g == 24 && s == 1460;
    } else {
      assert doe / 36_524 == c && doe / 146_096 == 0;
      assert doe - doe / 1460 + doe / 36_524 - doe / 146_096 == 365 * (100 * c + 4 * g) + (s - leap);
    }
  }

  lemma YearOfEraBounds(doe: int)
    requires 0 <= doe < DAYS_PER_ERA
    ensures 0 <= YearOfEra(doe) < 400
    ensures YearStart(YearOfEra(doe)) <= doe
    ensures YearOfEra(doe) < 399 ==> doe < YearStart(YearOfEra(doe) + 1)
  {
    hide YearOfEra;
    var c := if doe == 146_096 then 3 else doe / 36_524;
    var r := doe - 36_524 * c;
    var g, s := r / 1461, r % 1461;
    YearInGroup(c, g, s);
    assert doe == 36_524 * c + 1461 * g + s;
    var leap := if 24 * c + g + s >= 1460 then 1 else 0;
    var j := (s - leap) / 365;
    assert 0 <= j < 4;
    GroupStart(c, g, j);
    if c < 3 || g < 24 || j < 3 {
      var next := if j < 3 then g else if g == 24 then 0 else g + 1;
      GroupStart(if g == 24 && j == 3 then c + 1 else c, next, (j + 1) % 4);
    }
  }

  lemma GroupStart(c: int, g: int, j: int)
    requires 0 <= c && 0 <= g < 25 && 0 <= j < 4
    ensures YearStart(100 * c + 4 * g + j) == 36_524 * c + 1461 * g + 365 * j
  {
    var y := 100 * c + 4 * g + j;
    assert y / 100 == c;
    assert y / 4 == 25 * c + g;
  }

  /** A year of the era is March to February: it has the 29th exactly when that February does. */
  lemma YearLength(yoe: int, era: int)
    requires 0 <= yoe < 399
    ensures YearStart(yoe + 1) - YearStart(yoe) == YearDays(yoe + era * 400 + 1)
  {
    LeapRepeats(yoe + 1, era);
  }

  lemma LeapRepeats(y: int, era: int)
    ensures YearDays(y + era * 400) == YearDays(y)
  {
    Shift(y, era, 400);
    Shift(y, 4 * era, 100);
    Shift(y, 100 * era, 4);
  }

  lemma Shift(a: int, k: int, m: int)
    requires m == 4 || m == 100 || m == 400
    ensures (a + k * m) % m == a % m
  {
    var q, r := a / m, a % m;
    var q', r' := (a + k * m) / m, (a + k * m) % m;
    if m == 4 {
      assert 4 * (q + k - q') == r' - r;
    } else if m == 100 {
      assert 100 * (q + k - q') == r' - r;
    } else {
      assert 400 * (q + k - q') == r' - r;
    }
  }

  lemma MonthDayNext(doy: int, y: int)
    requires 0 <= doy < 366
    ensures var (m, d) := MonthDay(doy);
            1 <= m <= 12 && 1 <= d && (m != 2 ==> d <= DaysInMonth(y, m)) && (m == 2 ==> d == doy - 336 <= 29)
    ensures doy < 365 ==>
              var (m, d) := MonthDay(doy);
              MonthDay(doy + 1) == (if d < DaysInMonth(y, m) || m == 2 then (m, d + 1) else if m < 12 then (m + 1, 1)
                  else (1, 1))
  {
  }

  lemma {:induction false} YearStartGrows(a: int, b: int)
    requires 0 <= a < b
    ensures YearStart(a) + 365 * (b - a) <= YearStart(b)
    decreases b - a
  {
    DivStep(a, 4);
    DivStep(a, 100);
    Shift(a + 1, -((a + 1) / 100) * 25, 4);
    if a + 1 < b { YearStartGrows(a + 1, b); }
  }

  /** The next day of an era is the next day of its year, or the first of the next year. */
  lemma YearOfEraNext(doe: int)
    requires 0 <= doe && doe + 1 < DAYS_PER_ERA
    ensures var yoe := YearOfEra(doe);
            if yoe < 399 && doe + 1 == YearStart(yoe + 1) then YearOfEra(doe + 1) == yoe + 1
                else YearOfEra(doe + 1) == yoe
  {
    var yoe, next := YearOfEra(doe), YearOfEra(doe + 1);
    YearOfEraBounds(doe);
    YearOfEraBounds(doe + 1);
    if next < yoe {
      YearStartGrows(next + 1, yoe + 1);
    } else if next > yoe + 1 {
      YearStartGrows(yoe + 1, next);
    }
  }

  lemma WithinYear(era: int, yoe: int, doy: int)
    requires 0 <= yoe < 400 && 0 <= doy
    requires doy < YearDays(yoe + era * 400 + 1)
    ensures Valid(CivilOf(era, yoe, doy))
    ensures doy + 1 < YearDays(yoe + era * 400 + 1)
            ==> CivilOf(era, yoe, doy + 1) == Tomorrow(CivilOf(era, yoe, doy))
    ensures doy + 1 == YearDays(yoe + era * 400 + 1)
            ==> Tomorrow(CivilOf(era, yoe, doy)) == Date(yoe + era * 400 + 1, 3, 1)
  {
    var y := yoe + era * 400;
    MonthDayNext(doy, if MonthDay(doy).0 <= 2 then y + 1 else y);
  }

  /** Day-of-year bounds, and which day of an era begins the next year. */
  lemma YearEnds(era: int, doe: int)
    requires 0 <= doe < DAYS_PER_ERA
    ensures var yoe := YearOfEra(doe);
            0 <= yoe < 400 && 0 <= doe - YearStart(yoe) < YearDays(yoe + era * 400 + 1)
    ensures var yoe := YearOfEra(doe);
            doe + 1 < DAYS_PER_ERA ==>
              if doe + 1 - YearStart(yoe) == YearDays(yoe + era * 400 + 1)
              then YearOfEra(doe + 1) == yoe + 1 && doe + 1 == YearStart(yoe + 1)
              else YearOfEra(doe + 1) == yoe
    ensures doe + 1 == DAYS_PER_ERA ==>
              YearOfEra(doe) == 399 && doe + 1 - YearStart(399) == YearDays(399 + era * 400 + 1)
  {
    var yoe := YearOfEra(doe);
    YearOfEraBounds(doe);
    if yoe < 399 { YearLength(yoe, era); } else { LastYearOfEra(era); }
    if doe + 1 < DAYS_PER_ERA { YearOfEraNext(doe); }
  }

  lemma LastYearOfEra(era: int)
    ensures YearStart(399) + 366 == DAYS_PER_ERA
    ensures YearDays(399 + era * 400 + 1) == 366
  {
    var y := 399 + era * 400 + 1;
    assert y == 400 * (era + 1);
    assert y % 400 == 0;
    assert y == 4 * (100 * (era + 1));
    assert y % 4 == 0;
  }

  lemma EraStep(z: int)
    ensures z % DAYS_PER_ERA + 1 < DAYS_PER_ERA ==>
              (z + 1) / DAYS_PER_ERA == z / DAYS_PER_ERA && (z + 1) % DAYS_PER_ERA == z % DAYS_PER_ERA + 1
    ensures z % DAYS_PER_ERA + 1 == DAYS_PER_ERA ==>
              (z + 1) / DAYS_PER_ERA == z / DAYS_PER_ERA + 1 && (z + 1) % DAYS_PER_ERA == 0
  {
  }

  lemma FirstOfYear(era: int, yoe: int)
    ensures CivilOf(era, yoe, 0) == Date(yoe + era * 400, 3, 1)
    ensures YearOfEra(0) == 0 && YearStart(0) == 0
  {
  }

  lemma EraSuccessor(era: int, doe: int)
    requires 0 <= doe < DAYS_PER_ERA
    ensures Valid(CivilInEra(era, doe))
    ensures Tomorrow(CivilInEra(era, doe)) == (if doe + 1 < DAYS_PER_ERA then CivilInEra(era, doe + 1)
        else CivilInEra(era + 1, 0))
  {
    hide YearOfEra, YearStart, CivilOf, YearDays, Tomorrow, Valid;
    var yoe := YearOfEra(doe);
    YearEnds(era, doe);
    FirstOfYear(era, yoe + 1);
    FirstOfYear(era + 1, 0);
    assert yoe == 399 ==> yoe + era * 400 + 1 == 400 * (era + 1);
    WithinYear(era, yoe, doe - YearStart(yoe));
  }

  /** The calendar law: every day of the arithmetic is followed by the next civil day. */
  lemma CivilSuccessor(days: int)
    ensures Valid(CivilFromDays(days))
    ensures CivilFromDays(days + 1) == Tomorrow(CivilFromDays(days))
  {
    hide CivilInEra, Tomorrow, Valid;
    var z := days + EPOCH_SHIFT;
    var era, doe := z / DAYS_PER_ERA, z % DAYS_PER_ERA;
    EraStep(z);
    var today, next := CivilInEra(era, doe), CivilInEra((z + 1) / DAYS_PER_ERA, (z + 1) % DAYS_PER_ERA);
    assert Valid(today) && next == Tomorrow(today) by { EraSuccessor(era, doe); }
    assert CivilFromDays(days) == today;
    assert CivilFromDays(days + 1) == next by { assert days + 1 + EPOCH_SHIFT == z + 1; }
  }

  // --- days counted from dates ----------------------------------------------

  function DaysBeforeMonth(y: int, m: int): int
    requires 1 <= m <= 12
    decreases m
  {
    if m == 1 then 0 else DaysBeforeMonth(y, m - 1) + DaysInMonth(y, m - 1)
  }

  /** Days from the epoch to the first of January, counted by whole years and their leap days. */
  function DayOfYearStart(y: int): int {
    365 * (y - 1970) + (y - 1969) / 4 - (y - 1901) / 100 + (y - 1601) / 400
  }

  /** The day number of a date, counted independently of `CivilFromDays`. */
  function DayNumber(d: Date): int
    requires 1 <= d.month <= 12
  {
    DayOfYearStart(d.year) + DaysBeforeMonth(d.year, d.month) + d.day - 1
  }

  lemma YearSteps(y: int)
    ensures DayOfYearStart(y + 1) == DayOfYearStart(y) + YearDays(y)
  {
    DivStep(y - 1969, 4);
    DivStep(y - 1901, 100);
    DivStep(y - 1601, 400);
    Shift(y, -492, 4);
    Shift(y, -19, 100);
    Shift(y, -4, 400);
  }

  lemma DivStep(x: int, m: int)
    requires m == 4 || m == 100 || m == 400
    ensures (x + 1) / m == x / m + (if (x + 1) % m == 0 then 1 else 0)
  {
  }

  lemma Epoch()
    ensures CivilFromDays(0) == Date(1970, 1, 1) && DayNumber(Date(1970, 1, 1)) == 0
  {
    assert YearOfEra(135_080) == 369;
    assert YearStart(369) == 134_774;
  }

  lemma WholeYear(y: int)
    ensures DaysBeforeMonth(y, 12) + 31 == YearDays(y)
  {
    assert DaysBeforeMonth(y, 3) == 31 + DaysInMonth(y, 2);
    assert DaysBeforeMonth(y, 6) == DaysBeforeMonth(y, 3) + 92;
    assert DaysBeforeMonth(y, 9) == DaysBeforeMonth(y, 6) + 92;
  }

  lemma DayNumberSteps(d: Date)
    requires Valid(d)
    ensures Valid(Tomorrow(d)) && DayNumber(Tomorrow(d)) == DayNumber(d) + 1
  {
    YearSteps(d.year);
    WholeYear(d.year);
  }

  lemma CountStep(days: int)
    ensures DayNumber(CivilFromDays(days + 1)) == DayNumber(CivilFromDays(days)) + 1
  {
    var today := CivilFromDays(days);
    CivilSuccessor(days);
    CivilSuccessor(days + 1);
    assert DayNumber(Tomorrow(today)) == DayNumber(today) + 1 by { DayNumberSteps(today); }
  }

  /** The arithmetic and the count are inverse, for every day before and after the epoch. */
  lemma {:induction false} DaysRoundTrip(days: int)
    ensures DayNumber(CivilFromDays(days)) == days
    decreases if days < 0 then -days else days
  {
    CivilSuccessor(days);
    if days == 0 {
      Epoch();
    } else {
      var before := if days > 0 then days - 1 else days;
      CountStep(before);
      DaysRoundTrip(if days > 0 then days - 1 else days + 1);
    }
  }

  lemma {:induction false} YearStartsGrow(a: int, b: int)
    requires a < b
    ensures DayOfYearStart(a) + YearDays(a) <= DayOfYearStart(b)
    decreases b - a
  {
    YearSteps(a);
    if a + 1 < b { YearStartsGrow(a + 1, b); }
  }

  lemma {:induction false} MonthsGrow(y: int, m: int, n: int)
    requires 1 <= m < n <= 12
    ensures DaysBeforeMonth(y, m) + DaysInMonth(y, m) <= DaysBeforeMonth(y, n)
    decreases n
  {
    if m + 1 < n { MonthsGrow(y, m, n - 1); }
  }

  lemma DayNumberOrders(a: Date, b: Date)
    requires Valid(a) && Valid(b) && Earlier(a, b)
    ensures DayNumber(a) < DayNumber(b)
  {
    if a.year < b.year {
      YearStartsGrow(a.year, b.year);
      WholeYear(a.year);
      if a.month < 12 { MonthsGrow(a.year, a.month, 12); }
      if 1 < b.month { MonthsGrow(b.year, 1, b.month); }
    } else if a.month < b.month {
      MonthsGrow(a.year, a.month, b.month);
    }
  }

  /** Dates of the arithmetic are in calendar order exactly as their days are. */
  lemma CivilOrders(a: int, b: int)
    ensures Earlier(CivilFromDays(a), CivilFromDays(b)) <==> a < b
  {
    var x, y := CivilFromDays(a), CivilFromDays(b);
    CivilSuccessor(a);
    CivilSuccessor(b);
    DaysRoundTrip(a);
    DaysRoundTrip(b);
    if Earlier(x, y) { DayNumberOrders(x, y); }
    if Earlier(y, x) { DayNumberOrders(y, x); }
  }

  /** Every civil date is the date of its own day number. */
  lemma DateRoundTrip(d: Date)
    requires Valid(d)
    ensures CivilFromDays(DayNumber(d)) == d
  {
    var e := CivilFromDays(DayNumber(d));
    CivilSuccessor(DayNumber(d));
    DaysRoundTrip(DayNumber(d));
    if Earlier(e, d) { DayNumberOrders(e, d); }
    if Earlier(d, e) { DayNumberOrders(d, e); }
  }

  lemma SinceEpoch(days: nat)
    ensures Valid(CivilFromDays(days)) && CivilFromDays(days).year >= 1970
  {
    CivilSuccessor(days);
    Epoch();
    CivilOrders(days, 0);
  }
}
