/** One moment, said and read again: what its phrase comes to, and when that is the moment itself. */
module OnceLaws {
  import opened Text
  import opened Calendar
  import opened Zone
  import opened Phrases
  import opened Saying
  import opened PhraseLaws
  import opened NameLaws
  import opened MomentLaws

  // --- the date and the clock as printed --------------------------------------------

  lemma DateReadsBack(y: nat, m: nat, d: nat)
    requires 1000 <= y <= 9999 && m < 100 && d < 100
    ensures var w := Decimal(y) + "-" + Two(m) + "-" + Two(d);
            && |w| == 10 && IsDate(w) && IsDigit(w[0])
            && NumberOf(w[..4]) == y && NumberOf(w[5..7]) == m && NumberOf(w[8..10]) == d
            && (forall i :: 0 <= i < 10 ==> IsDigit(w[i]) || w[i] == '-')
  {
    ShortDecimal(m);
    ShortDecimal(d);
    PaddedReadsBack(y, 1);
    FourDigits(y);
    var a, b, c := Decimal(y), Two(m), Two(d);
    hide Decimal, Two, NumberOf;
    var w := a + "-" + b + "-" + c;
    assert w[..4] == a && w[5..7] == b && w[8..10] == c;
  }

  lemma FourDigits(y: nat)
    requires 1000 <= y <= 9999
    ensures |Decimal(y)| == 4
  {
    assert |Padded(y / 1000, 0)| == 1;
    assert |Padded(y / 100, 0)| == 2;
    assert |Padded(y / 10, 0)| == 3;
  }

  /** A moment that can be scheduled is not before 1969 on any zone's clock. */
  lemma NotBefore1969(off: Offset, at: int)
    requires IsZone(off) && at > 0
    ensures WallClock(at, off).date.year >= 1969
  {
    hide CivilFromDays;
    assert -DAY < off(at) < DAY;
    var days := (at + off(at)) / DAY;
    var last := Date(1968, 12, 31);
    WholeYear(1968);
    assert DayNumber(last) == -366;
    hide DayNumber;
    CivilSuccessor(days);
    DateRoundTrip(last);
    CivilOrders(-366, days);
  }

  lemma LongDate(y: nat, m: nat, d: nat)
    requires y >= 10_000 && m < 100 && d < 100
    ensures var w := Decimal(y) + "-" + Two(m) + "-" + Two(d);
            && |w| >= 2 && !IsDate(w) && IsDigit(w[0])
            && (forall i :: 0 <= i < |w| ==> IsDigit(w[i]) || w[i] == '-')
  {
    ShortDecimal(m);
    ShortDecimal(d);
    TwoDigits(y / 1000);
    assert |Padded(y / 100, 0)| >= 3;
    assert |Padded(y / 10, 0)| >= 4;
    var a, b, c := Decimal(y), Two(m), Two(d);
    assert |a| >= 5 && AllDigits(a);
    hide Decimal, Two, NumberOf;
    assert (a + "-" + b + "-" + c)[4] == a[4];
  }

  lemma TwoDigits(n: nat)
    requires n >= 10
    ensures |Padded(n, 0)| >= 2
  {
  }

  lemma MonthsAndDays(d: Date)
    requires Valid(d)
    ensures 1 <= d.month < 100 && 1 <= d.day < 100
  {
  }

  // --- the phrase, read --------------------------------------------------------------

  /** The moment read back: the clock shown at `at`, to the minute, turned into a moment again. */
  function SeenAgain(at: int, off: Offset): int {
    TwoPass(off, ToMinute(at + off(at)))
  }

  /** What the phrase of a moment comes to, for every moment that can be scheduled and every zone:
      refused past the year 9999, and otherwise the moment its clock stands for, if that is ahead. */
  lemma OnceReads(at: int, ctx: Context)
    requires IsZone(ctx.off) && 0 < at
    ensures ParseWhen(Phrase(Once(at), ctx), ctx)
         == if WallClock(at, ctx.off).date.year <= 9999 then IfAhead(SeenAgain(at, ctx.off), ctx) else Refused
  {
    hide WallClock, DateUtc, TwoPass, ParseWhen, Decimal, Two, ParseClock, NumberOf, IsDate, ClockText, ToMinute;
    var wall := WallClock(at, ctx.off);
    WallIsPrintable(at, ctx.off);
    ClockReadsBack(wall.clock.hour, wall.clock.minute);
    var date := Decimal(wall.date.year) + "-" + Two(wall.date.month) + "-" + Two(wall.date.day);
    var clock := ClockText(wall.clock.hour, wall.clock.minute);
    assert OnceWords(at, ctx.off) == ["on", date, "at", clock];
    if wall.date.year <= 9999 {
      DateReadsBack(wall.date.year, wall.date.month, wall.date.day);
      PrintedReads(date, clock, wall.clock, ctx);
    } else {
      LongDate(wall.date.year, wall.date.month, wall.date.day);
      LongDateIsRefused(date, clock, ctx);
    }
  }

  lemma WallIsPrintable(at: int, off: Offset)
    requires IsZone(off) && 0 < at
    ensures var wall := WallClock(at, off);
            && IsClock(wall.clock) && DateUtc(wall.date, wall.clock) == ToMinute(at + off(at))
            && wall.date.year >= 1969 && 1 <= wall.date.month < 100 && 1 <= wall.date.day < 100
  {
    hide CivilFromDays, DateUtc;
    SeenAsUtc(at, off);
    NotBefore1969(off, at);
    CivilSuccessor((at + off(at)) / DAY);
    MonthsAndDays(CivilFromDays((at + off(at)) / DAY));
  }

  /** A date and a clock as they are printed, read as the moment they stand for. */
  lemma PrintedReads(date: string, clock: string, c: Clock, ctx: Context)
    requires |date| == 10 && IsDate(date) && forall i :: 0 <= i < 10 ==> IsDigit(date[i]) || date[i] == '-'
    requires IsClock(c) && clock == ClockText(c.hour, c.minute)
    ensures ParseWhen(["on", date, "at", clock], ctx) == IfAhead(TwoPass(ctx.off, DateUtc(DateOf(date), c)), ctx)
  {
    ClockReadsBack(c.hour, c.minute);
    hide ClockText, ParseClock, NumberOf, DateUtc, TwoPass, ParseWhen, IsDate;
    PrintedTime(clock, c);
    PrintedLower(date, clock);
    hide TimeText, LowerAll;
    assert ["on"] + [date, "at", clock] == ["on", date, "at", clock];
    DatesRead(["on", date, "at", clock], true, date, clock, AfterAt, c, ctx);
  }

  lemma PrintedTime(clock: string, c: Clock)
    requires ParseClock(clock) == Some(c) && |clock| == 5 && clock[2] == ':'
    requires forall i :: 0 <= i < 5 && i != 2 ==> IsDigit(clock[i])
    ensures TimeText(clock, c) && !EndsInZ(clock)
  {
    hide ParseClock, NumberOf;
    assert WithoutZ(clock) == clock && WithoutSeconds(clock) == clock;
  }

  lemma PrintedLower(date: string, clock: string)
    requires forall i :: 0 <= i < |date| ==> IsDigit(date[i]) || date[i] == '-'
    requires Lower(clock) == clock
    ensures LowerAll(["on", date, "at", clock]) == ["on", date, "at", clock]
  {
    LowerLeaves("on");
    LowerLeaves("at");
    LowerLeaves(date);
    var raw := ["on", date, "at", clock];
    forall i | 0 <= i < 4 ensures Lower(raw[i]) == raw[i] {
    }
  }

  lemma LongDateIsRefused(date: string, clock: string, ctx: Context)
    requires |date| >= 2 && !IsDate(date) && IsDigit(date[0]) && Lower(clock) == clock
    requires forall i :: 0 <= i < |date| ==> IsDigit(date[i]) || date[i] == '-'
    ensures ParseWhen(["on", date, "at", clock], ctx) == Refused
  {
    var raw := ["on", date, "at", clock];
    PrintedLower(date, clock);
    hide Lower, LowerAll, IsDate, ParseClock, NumberOf;
    DateSays(raw, raw, true, [date, "at", clock]);
    hide IsCronLine, Plain;
    ConcatOpens(raw);
    NotAClock(Concat(raw));
    assert raw == ["on"] + [date, "at", clock];
    NoPhraseBefore(raw, true, [date, "at", clock], ctx);
    assert raw[1..][0] == date;
    assert DatePhrase(raw, ctx) == None;
    hide EveryCount, Hourly, GroupPhrase, NamedPhrase, InPhrase, ClockPhrase, DatePhrase;
  }

  // --- the round trip ---------------------------------------------------------------

  /** For every moment that can be scheduled and every zone: the phrase reads back to the moment
      itself exactly if it is ahead, its year has four digits, and it is the moment its clock stands
      for. Then it is a whole minute. */
  lemma OnceRoundTrip(at: int, ctx: Context)
    requires IsZone(ctx.off) && 0 < at <= MAX_SAFE_INTEGER
    ensures ParseWhen(Phrase(Once(at), ctx), ctx) == Ok(Once(at)) <==>
              ctx.now < at && WallClock(at, ctx.off).date.year <= 9999 && SeenAgain(at, ctx.off) == at
    ensures SeenAgain(at, ctx.off) == at ==> at % MINUTE == 0
  {
    hide ParseWhen, Phrase, WallClock, SeenAgain, IsZone;
    OnceReads(at, ctx);
    SeenInMinutes(at, ctx.off);
  }

  lemma SeenInMinutes(at: int, off: Offset)
    requires IsZone(off)
    ensures SeenAgain(at, off) % MINUTE == 0
  {
    var asUtc := ToMinute(at + off(at));
    var seen := off(asUtc - off(asUtc));
    assert seen % MINUTE == 0 && asUtc % MINUTE == 0;
  }

  /** With one change of offset about, a whole minute is the moment its clock stands for unless the
      clock comes twice and this is the other time: the earlier of the two is read where the clock
      read as UTC is before the change, the later where it is not. */
  lemma WholeMinutesSeenAgain(off: Offset, at: int, change: int, a: int, b: int)
    requires IsZone(off) && at % MINUTE == 0 && OneTransition(off, at + off(at), change, a, b)
    ensures var asUtc := at + off(at);
            SeenAgain(at, off) == at <==>
              !(change + b <= asUtc < change + a) || (at < change <==> asUtc < change)
  {
    var asUtc := at + off(at);
    assert off(at) % MINUTE == 0 && -DAY < off(at) < DAY && ToMinute(asUtc) == asUtc;
    var first := asUtc - off(asUtc);
    assert -DAY < off(asUtc) < DAY;
    assert -DAY < off(first) < DAY;
  }

  // --- moments that are lost ------------------------------------------------------------

  /** "in 45 minutes", said with seconds on the clock, is a moment whose phrase never reads back to it. */
  lemma SecondsAreLost(ctx: Context)
    requires IsZone(ctx.off) && ctx.now % MINUTE != 0 && 0 < ctx.now + 45 * MINUTE <= MAX_SAFE_INTEGER
    ensures var at := ctx.now + 45 * MINUTE;
            && ParseWhen(["in", "45", "minutes"], ctx) == Ok(Once(at))
            && ParseWhen(Phrase(Once(at), ctx), ctx) != Ok(Once(at))
  {
    hide ParseWhen, Phrase, SeenAgain, WallClock, LowerAll, NumberOf, IsZone, IsNumber;
    var at := ctx.now + 45 * MINUTE;
    OnceRoundTrip(at, ctx);
    FortyFive();
    InReads(["in", "45", "minutes"], "45", "minutes", ctx);
  }

  lemma FortyFive()
    ensures IsNumber("45") && NumberOf("45") == 45 && LowerAll(["in", "45", "minutes"]) == ["in", "45", "minutes"]
  {
    assert "45"[..1] == "4" && "4"[..0] == "";
    LowerLeaves("in");
    LowerLeaves("45");
    LowerLeaves("minutes");
    var raw := ["in", "45", "minutes"];
    forall i | 0 <= i < 3 ensures Lower(raw[i]) == raw[i] {
    }
  }

  /** New York's autumn night, four hours west going to five: half past one comes twice, and the
      phrase of the second time reads back to the first. */
  lemma SecondTimeIsLost(now: int, accepts: Words -> bool)
    requires now < 5 * HOUR + 30 * MINUTE
    ensures var off := t => if t < 6 * HOUR then -4 * HOUR else -5 * HOUR;
            var ctx, first, second := Context(now, off, accepts), 5 * HOUR + 30 * MINUTE, 6 * HOUR + 30 * MINUTE;
            ParseWhen(Phrase(Once(second), ctx), ctx) == Ok(Once(first))
  {
    var off := t => if t < 6 * HOUR then -4 * HOUR else -5 * HOUR;
    var ctx, second := Context(now, off, accepts), 6 * HOUR + 30 * MINUTE;
    hide ParseWhen, Phrase, WallClock, SeenAgain, ToMinute, TwoPass;
    OnceReads(second, ctx);
    NewYorkAutumn(off, second);
    FirstDayIs1970(second, off);
  }

  lemma NewYorkAutumn(off: Offset, at: int)
    requires forall t :: off(t) == if t < 6 * HOUR then -4 * HOUR else -5 * HOUR
    requires at == 6 * HOUR + 30 * MINUTE
    ensures SeenAgain(at, off) == 5 * HOUR + 30 * MINUTE
  {
  }

  lemma FirstDayIs1970(at: int, off: Offset)
    requires 0 <= at + off(at) < DAY
    ensures WallClock(at, off).date.year == 1970
  {
    assert (at + off(at)) / DAY == 0;
    Epoch();
  }
}
