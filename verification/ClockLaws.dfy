/** Which texts are which clock times, how long the units are, and the spellings that make no difference. */
module ClockLaws {
  import opened Text
  import opened Zone
  import Calendar
  import opened Phrases
  import opened Saying
  import opened PhraseLaws
  import opened NameLaws
  import opened RepeatLaws
  import opened MomentLaws

  // --- clock times --------------------------------------------------------------------

  /** The hour a twelve-hour clock shows. */
  function TwelveHour(hour: int): int {
    if hour % 12 == 0 then 12 else hour % 12
  }

  /** A time in digits: one or two for the hour, two for the minute if it is said, and a suffix. */
  datatype Spelling = Spelling(hour: string, minute: Option<string>, suffix: string)

  function Spelt(w: Spelling): string {
    w.hour + (if w.minute.Some? then ":" + w.minute.value else "") + w.suffix
  }

  /** `am` is before noon and `pm` from noon on, by the hour a twelve-hour clock shows; without either, or
      with an `h`, the hour is that of the day. */
  predicate Spells(w: Spelling, c: Clock) {
    && 1 <= |w.hour| <= 2 && AllDigits(w.hour)
    && (w.minute.Some? ==> |w.minute.value| == 2 && AllDigits(w.minute.value))
    && IsClock(c) && c.minute == (if w.minute.Some? then NumberOf(w.minute.value) else 0)
    && if w.suffix == "am" then c.hour < 12 && NumberOf(w.hour) == TwelveHour(c.hour)
       else if w.suffix == "pm" then c.hour >= 12 && NumberOf(w.hour) == TwelveHour(c.hour)
       else (w.suffix == "" || w.suffix == "h") && NumberOf(w.hour) == c.hour
  }

  ghost predicate Denotes(text: string, c: Clock) {
    || ((text == "noon" || text == "midday") && c == Clock(12, 0))
    || (text == "midnight" && c == Clock(0, 0))
    || exists w :: Spells(w, c) && text == Spelt(w)
  }

  /** The clock reader takes exactly the texts that denote a time, and for that time. */
  lemma ClocksRead(text: string, c: Clock)
    ensures ParseClock(text) == Some(c) <==> Denotes(text, c)
  {
    if ParseClock(text) == Some(c) { ReadIsSpelt(text, c); }
    if w :| Spells(w, c) && text == Spelt(w) { SpeltIsRead(w, c); }
  }

  lemma ReadIsSpelt(text: string, c: Clock)
    requires ParseClock(text) == Some(c)
    ensures Denotes(text, c)
  {
    if text != "noon" && text != "midday" && text != "midnight" {
      var n := if |text| >= 2 && IsDigit(text[1]) then 2 else 1;
      var said := |text| >= n + 3 && text[n] == ':' && IsNumber(text[n + 1..n + 3]);
      var w := if said then Spelling(text[..n], Some(text[n + 1..n + 3]), text[n + 3..])
               else Spelling(text[..n], None, text[n..]);
      hide NumberOf;
      assert text == Spelt(w);
      assert Spells(w, c);
    }
  }

  lemma SpeltIsRead(w: Spelling, c: Clock)
    requires Spells(w, c)
    ensures ParseClock(Spelt(w)) == Some(c)
  {
    var text, n := Spelt(w), |w.hour|;
    hide NumberOf;
    assert "noon"[0] == 'n' && "midday"[0] == 'm' && "midnight"[0] == 'm';
    assert text[0] == w.hour[0] && text[..n] == w.hour;
    assert w.suffix == "" || w.suffix[0] == 'a' || w.suffix[0] == 'p' || w.suffix[0] == 'h';
    if w.minute.Some? {
      assert text[n] == ':' && text[n + 1..n + 3] == w.minute.value && text[n + 3..] == w.suffix;
    } else {
      assert text[n..] == w.suffix;
    }
  }

  /** "weekdays at 5:30 pm", the half of the day a word of its own, is half past seventeen. */
  lemma HalfPastFive(ctx: Context)
    ensures ParseWhen(["weekdays", "at", "5:30", "pm"], ctx) == ValidCron(ctx, ["30", "17", "*", "*", "1-5"])
    ensures ParseWhen(["weekdays", "at", "5:30", "am"], ctx) == ValidCron(ctx, ["30", "5", "*", "*", "1-5"])
  {
    HalfPast("pm", Clock(17, 30), ctx);
    HalfPast("am", Clock(5, 30), ctx);
    assert Decimal(30) == "30" && Decimal(17) == "17" && Decimal(5) == "5" by { OneDigits(); }
  }

  lemma OneDigits()
    ensures Decimal(30) == "30" && Decimal(17) == "17" && Decimal(5) == "5"
  {
    assert Padded(3, 0) == "3" && Padded(1, 0) == "1";
  }

  lemma HalfPast(suffix: string, c: Clock, ctx: Context)
    requires (suffix == "am" && c == Clock(5, 30)) || (suffix == "pm" && c == Clock(17, 30))
    ensures ParseWhen(["weekdays", "at", "5:30", suffix], ctx) == AtClock(ctx, Some(c), "1-5")
  {
    var raw := ["weekdays", "at", "5:30", suffix];
    var w := Spelling("5", Some("30"), suffix);
    assert "30"[..1] == "3" && "3"[..0] == "" && "5"[..0] == "";
    assert NumberOf("30") == 30 && NumberOf("5") == 5;
    assert Spells(w, c) && Spelt(w) == "5" + (":" + "30") + suffix == "5:30" + suffix;
    SpeltIsRead(w, c);
    HalfPastReads(raw, suffix, c, ctx);
  }

  lemma HalfPastReads(raw: Words, suffix: string, c: Clock, ctx: Context)
    requires suffix == "am" || suffix == "pm"
    requires raw == ["weekdays", "at", "5:30", suffix] && ParseClock("5:30" + suffix) == Some(c)
    ensures ParseWhen(raw, ctx) == AtClock(ctx, Some(c), "1-5")
  {
    hide ParseWhen, ParseClock;
    assert Concat(["5:30", suffix]) == "5:30" + Concat([suffix]) == "5:30" + (suffix + Concat([]));
    assert suffix + Concat([]) == suffix;
    assert LowerAll(raw) == raw by {
      forall i | 0 <= i < 4 ensures Lower(raw[i]) == raw[i] { LowerLeaves(raw[i]); }
    }
    hide LowerAll, Concat;
    assert raw == ["weekdays"] + ["at"] + ["5:30", suffix];
    GroupsRead(raw, ["weekdays"], "1-5", ["5:30", suffix], ctx);
  }

  // --- units ----------------------------------------------------------------------------

  /** The words that are units, and each unit in the next: sixty minutes, twenty-four hours, seven days. */
  lemma UnitsNest(unit: string)
    ensures UnitMs(unit).Some? <==>
              unit in ["minute", "minutes", "min", "mins", "hour", "hours", "hr", "hrs", "day", "days", "week", "weeks"]
    ensures unit in ["minute", "minutes", "min", "mins"] ==> UnitMs(unit) == Some(MINUTE)
    ensures unit in ["hour", "hours", "hr", "hrs"] ==> UnitMs(unit) == Some(60 * MINUTE) && 60 * MINUTE == HOUR
    ensures unit in ["day", "days"] ==> UnitMs(unit) == Some(24 * HOUR) && 24 * HOUR == DAY
    ensures unit in ["week", "weeks"] ==> UnitMs(unit) == Some(7 * DAY)
  {
  }

  /** Today's clock time is that clock on the civil day it is in the zone; tomorrow's, on the civil day after it. */
  lemma TomorrowIsTheNextDay(ctx: Context, c: Clock)
    ensures var today := WallClock(ctx.now, ctx.off).date;
            && TodayAt(ctx, 0, c) == TwoPass(ctx.off, DateUtc(today, c))
            && TodayAt(ctx, 1, c) == TwoPass(ctx.off, DateUtc(Calendar.Tomorrow(today), c))
  {
    hide Calendar.CivilFromDays, Calendar.DayNumber, Calendar.Tomorrow, DateUtc, TwoPass;
    var days := (ctx.now + ctx.off(ctx.now)) / DAY;
    Calendar.CivilSuccessor(days);
    Calendar.DaysRoundTrip(days);
  }

  // --- moments as programs write them ------------------------------------------------------

  /** Seconds and their fraction are dropped from a time that has them, and nothing else is. */
  lemma SecondsAreDropped(clock: string, secs: string, fraction: Option<string>)
    requires |clock| == 5 && clock[2] == ':' && IsNumber(clock[..2]) && IsNumber(clock[3..])
    requires |secs| == 2 && AllDigits(secs) && (fraction.Some? ==> IsNumber(fraction.value))
    ensures WithoutSeconds(clock) == clock
    ensures WithoutSeconds(clock + ":" + secs + (if fraction.Some? then "." + fraction.value else "")) == clock
  {
    hide NumberOf;
    var text := clock + ":" + secs + (if fraction.Some? then "." + fraction.value else "");
    assert IsDigit(clock[..2][0]) && IsDigit(clock[..2][1]);
    assert text[..2] == clock[..2] && text[3..5] == clock[3..] && text[6..8] == secs && text[..5] == clock;
    if fraction.Some? { assert text[8] == '.' && text[9..] == fraction.value; }
  }

  /** A moment as programs print it, "2026-11-02t09:00:30.500z" in any letters, is that minute in UTC
      wherever the office is, and refused once passed. */
  lemma IsoMomentsRead(raw: Words, date: string, c: Clock, secs: string, fraction: string, ctx: Context)
    requires |date| == 10 && IsDate(date) && IsClock(c) && |secs| == 2 && AllDigits(secs) && IsNumber(fraction)
    requires LowerAll(raw) == [date + "t" + (ClockText(c.hour, c.minute) + ":" + secs + "." + fraction + "z")]
    ensures ParseWhen(raw, ctx) == IfAhead(DateUtc(DateOf(date), c), ctx)
  {
    var clock := ClockText(c.hour, c.minute);
    var bare := clock + ":" + secs + "." + fraction;
    var text := bare + "z";
    ClockReadsBack(c.hour, c.minute);
    hide ParseWhen, ClockText, DateUtc, TwoPass, IsDate, NumberOf, ParseClock, LowerAll;
    assert IsNumber(clock[..2]) && IsNumber(clock[3..]);
    assert bare == clock + ":" + secs + ("." + fraction);
    SecondsAreDropped(clock, secs, Some(fraction));
    assert WithoutZ(text) == bare;
    assert ' ' !in text;
    hide WithoutSeconds, WithoutZ, IsNumber;
    assert TimeText(text, c) && EndsInZ(text);
    assert [] + DateWords(date, text, AfterT) == [date + "t" + text];
    hide TimeText;
    DatesRead(raw, false, date, text, AfterT, c, ctx);
  }

  /** After a date a time may be two words, its half of the day apart: "on 2026-11-02 at 5:30 pm". */
  lemma DatedHalvesRead(raw: Words, on: bool, date: string, at: bool, time: string, half: string, c: Clock,
                        ctx: Context)
    requires |date| == 10 && IsDate(date) && (half == "am" || half == "pm") && ' ' !in time
    requires TimeWords([time, half], c)
    requires LowerAll(raw) == (if on then ["on"] else []) + ([date] + (if at then ["at"] else []) + [time, half])
    ensures ParseWhen(raw, ctx) == IfAhead(TwoPass(ctx.off, DateUtc(DateOf(date), c)), ctx)
  {
    var words := [date] + (if at then ["at"] else []) + [time, half];
    var ws := (if on then ["on"] else []) + words;
    assert IsDigit(date[..4][0]);
    TimeOpens([time, half], c);
    HalvesJoin(time, half);
    hide ParseWhen, LowerAll, IsCronLine, Plain, ParseClock, DateUtc, TwoPass, NumberOf, IsDate, DatePhrase, Concat;
    DateSays(raw, ws, on, words);
    assert |words| == if at then 4 else 3;
    assert words[|words| - 2] == time && words[|words| - 1] == half && words[1] == if at then "at" else time;
    DatedHalfSaid(ws, on, words, date, at, time, half, c, ctx);
    DateIsLast(raw, ws, on, words, ctx);
  }

  lemma DatedHalfSaid(ws: Words, on: bool, words: Words, date: string, at: bool, time: string, half: string,
                      c: Clock, ctx: Context)
    requires |date| == 10 && IsDate(date) && ws == (if on then ["on"] else []) + words && date[0] != 'o'
    requires words == [date] + (if at then ["at"] else []) + [time, half] && time != "at"
    requires var text := time + " " + half;
             && WithoutZ(text) == text && WithoutSeconds(text) == text && WithoutSpaces(text) == Concat([time, half])
    requires ParseClock(Concat([time, half])) == Some(c) && Concat([time, half]) != ""
    ensures DatePhrase(ws, ctx) == Some(IfAhead(TwoPass(ctx.off, DateUtc(DateOf(date), c)), ctx))
  {
    hide ParseClock, DateUtc, TwoPass, NumberOf, IsDate, WithoutSeconds, WithoutSpaces, WithoutZ, Concat;
    assert on ==> ws[1..] == words;
    assert !on ==> ws == words && ws[0] == date && ws[0] != "on";
    assert words[0] == date && date[10..] == "";
    assert at ==> words[2..] == [time, half];
    assert !at ==> words[1..] == [time, half] && words[1] == time;
    assert [time, half][1..] == [half];
    assert Join([time, half], ' ') == time + [' '] + Join([half], ' ') == time + " " + half;
  }

  lemma HalvesJoin(time: string, half: string)
    requires (half == "am" || half == "pm") && ' ' !in time && time != ""
    ensures var text := time + " " + half;
            && WithoutZ(text) == text && WithoutSeconds(text) == text && WithoutSpaces(text) == Concat([time, half])
            && Concat([time, half]) != ""
  {
    var text := time + " " + half;
    assert text[|text| - 1] == 'm' && text[|text| - 2] == half[0] && text[|text| - 3] == ' ';
    assert Concat([time, half]) == time + Concat([half]) == time + (half + Concat([]));
    assert half + Concat([]) == half;
    SpacesGo(time, half);
    SecondsStay(text);
  }

  lemma SecondsStay(text: string)
    requires text != "" && text[|text| - 1] == 'm'
    ensures WithoutSeconds(text) == text
  {
    hide NumberOf;
    var n := if |text| >= 2 && IsDigit(text[0]) && IsDigit(text[1]) then 2 else 1;
    if |text| == n + 6 { assert text[n + 4..n + 6][1] == 'm'; }
    if |text| > n + 7 { assert text[n + 7..][|text| - n - 8] == 'm'; }
  }

  lemma {:induction false} SpacesGo(a: string, b: string)
    requires ' ' !in a && ' ' !in b
    ensures WithoutSpaces(a + " " + b) == a + b
  {
    if a == "" {
      assert (a + " " + b)[1..] == b;
      NoSpaces(b);
    } else {
      assert (a + " " + b)[1..] == a[1..] + " " + b;
      SpacesGo(a[1..], b);
      assert a + b == [a[0]] + (a[1..] + b);
    }
  }

  // --- every hour ------------------------------------------------------------------------

  /** "hourly" or "every hour", and "at" a minute in one or two digits with or without a colon: taken on
      that minute up to 59, on the hour without one. */
  lemma HourlyReads(raw: Words, lead: Words, digits: string, colon: bool, ctx: Context)
    requires lead == ["hourly"] || lead == ["every", "hour"]
    requires IsNumber(digits) && |digits| <= 2
    ensures LowerAll(raw) == lead ==> ParseWhen(raw, ctx) == ValidCron(ctx, FieldsOf(HourlyAt(0)))
    ensures LowerAll(raw) == lead + ["at", (if colon then ":" else "") + digits] ==>
              ParseWhen(raw, ctx) == if NumberOf(digits) < 60 then ValidCron(ctx, FieldsOf(HourlyAt(NumberOf(digits))))
                                     else Refused
  {
    var ws := LowerAll(raw);
    var minute := (if colon then ":" else "") + digits;
    MorningDigits();
    hide ParseWhen, LowerAll, NumberOf, Decimal, ValidCron, Hourly, EveryCount, Says;
    if ws == lead || ws == lead + ["at", minute] {
      assert ws[..|lead|] == lead && ws[0] == lead[0];
      HourlySays(raw, ws);
      SaidPlainly(raw, ws);
      HourlySaid(ws, lead, digits, colon, ctx);
      HourlyIsRead(raw, ws, ctx);
    }
  }

  lemma HourlySays(raw: Words, ws: Words)
    requires LowerAll(raw) == ws && ws != [] && (ws[0] == "hourly" || ws[0] == "every")
    ensures Says(raw, ws)
  {
    hide LowerAll;
  }

  lemma HourlySaid(ws: Words, lead: Words, digits: string, colon: bool, ctx: Context)
    requires lead == ["hourly"] || lead == ["every", "hour"]
    requires IsNumber(digits) && |digits| <= 2
    requires ws == lead || ws == lead + ["at", (if colon then ":" else "") + digits]
    ensures EveryCount(ws, ctx) == None
    ensures Hourly(ws, ctx)
         == Some(if ws == lead then ValidCron(ctx, ["0", "*", "*", "*", "*"])
                 else if NumberOf(digits) < 60 then ValidCron(ctx, [Decimal(NumberOf(digits)), "*", "*", "*", "*"])
                 else Refused)
  {
    hide NumberOf, Decimal, ValidCron;
    var minute := (if colon then ":" else "") + digits;
    assert ws[..|lead|] == lead;
    assert forall i :: 0 <= i < |lead| ==> ws[i] == lead[i];
    assert ws != lead ==> ws[|lead|] == "at" && ws[|lead| + 1] == minute;
    assert colon ==> minute[0] == ':' && minute[1..] == digits;
    assert !colon ==> minute == digits && minute[0] == digits[0] && minute[0] != ':';
    assert !IsNumber("hour") by { assert !IsDigit("hour"[0]); }
  }

  lemma HourlyIsRead(raw: Words, ws: Words, ctx: Context)
    requires !IsCronLine(raw) && Plain(raw) == ws && ws != [] && EveryCount(ws, ctx) == None
    ensures Hourly(ws, ctx).Some? ==> ParseWhen(raw, ctx) == Hourly(ws, ctx).value
  {
    hide EveryCount, Hourly, GroupPhrase, NamedPhrase, InPhrase, ClockPhrase, DatePhrase, Plain, IsCronLine;
  }

  // --- a time with less around it -------------------------------------------------------

  /** A time alone is today's, or tomorrow's once that has passed. */
  lemma BareTimesRead(raw: Words, time: Words, c: Clock, ctx: Context)
    requires TimeWords(time, c) && LowerAll(raw) == time
    ensures ParseWhen(raw, ctx) == ClockResult([], c, ctx)
  {
    TimeOpens(time, c);
    TimeIsNoCron(raw, time, c);
    hide ParseWhen, ClockPhrase, TodayAt, ParseClock, Concat, TimeWords, LowerAll, IsCronLine, Plain;
    BareSaid(time, c, ctx);
    ClockIsNext(raw, time, ctx);
  }

  lemma BareSaid(time: Words, c: Clock, ctx: Context)
    requires TimeWords(time, c) && time[0] != "at" && time != ["tonight"]
    requires !StartsWith(time[0], "today") && !StartsWith(time[0], "tomorrow") && !StartsWith(time[0], "tonight")
    ensures ClockPhrase(time, ctx) == Some(ClockResult([], c, ctx))
  {
    hide ParseClock, TodayAt, Concat;
  }

  /** A day word may run into the time after it: "today5pm". */
  lemma GluedTimesRead(raw: Words, word: string, time: Words, c: Clock, ctx: Context)
    requires (word == "today" || word == "tomorrow") && TimeWords(time, c)
    requires LowerAll(raw) == [word + time[0]] + time[1..]
    ensures ParseWhen(raw, ctx) == ClockResult([word], c, ctx)
  {
    var ws := [word + time[0]] + time[1..];
    TimeOpens(time, c);
    GluedOpens(word, time[0]);
    hide ParseWhen, ClockPhrase, TodayAt, ParseClock, Concat, TimeWords, LowerAll, IsCronLine, Plain, StartsWith;
    assert Says(raw, ws);
    SaidPlainly(raw, ws);
    GluedSaid(ws, word, time, c, ctx);
    ClockIsNext(raw, ws, ctx);
  }

  lemma GluedOpens(word: string, first: string)
    requires (word == "today" || word == "tomorrow") && first != ""
    ensures var w := word + first;
            && w[0] == 't' && w != "please" && w[|word|..] == first && |w| > |word|
            && StartsWith(w, word) && !StartsWith(w, if word == "today" then "tomorrow" else "today")
  {
    var w := word + first;
    assert w[..|word|] == word;
    assert w[2] == word[2] && "today"[2] == 'd' && "tomorrow"[2] == 'm';
  }

  lemma GluedSaid(ws: Words, word: string, time: Words, c: Clock, ctx: Context)
    requires (word == "today" || word == "tomorrow") && TimeWords(time, c) && time[0] != "at"
    requires time != ["tonight"] && ws == [word + time[0]] + time[1..] && ws[0][|word|..] == time[0]
    requires StartsWith(ws[0], word) && !StartsWith(ws[0], if word == "today" then "tomorrow" else "today")
    ensures ClockPhrase(ws, ctx) == Some(ClockResult([word], c, ctx))
  {
    hide ParseClock, TodayAt, Concat, StartsWith;
    assert [time[0]] + time[1..] == time;
    assert DayWord(ws) == Some((if word == "today" then Today else Which.Tomorrow, time));
  }

  /** The clock phrases come next for whatever opens like one. */
  lemma ClockIsNext(raw: Words, ws: Words, ctx: Context)
    requires !IsCronLine(raw) && Plain(raw) == ws && ws != [] && ws[0] != ""
    requires IsDigit(ws[0][0]) || ws[0][0] == 'n' || ws[0][0] == 'm' || ws[0][0] == 't'
    ensures ClockPhrase(ws, ctx).Some? ==> ParseWhen(raw, ctx) == ClockPhrase(ws, ctx).value
  {
    NoneOpensLike(ws, ctx);
    hide EveryCount, Hourly, GroupPhrase, NamedPhrase, InPhrase, ClockPhrase, DatePhrase, Plain, IsCronLine;
  }

  lemma NoneOpensLike(ws: Words, ctx: Context)
    requires ws != [] && ws[0] != ""
    requires IsDigit(ws[0][0]) || ws[0][0] == 'n' || ws[0][0] == 'm' || ws[0][0] == 't'
    ensures EveryCount(ws, ctx) == None && Hourly(ws, ctx) == None && GroupPhrase(ws, ctx) == None
    ensures NamedPhrase(ws, ctx) == None && InPhrase(ws, ctx) == None
  {
    assert "every"[0] == 'e' && "hourly"[0] == 'h' && "on"[0] == 'o' && "in"[0] == 'i' && "daily"[0] == 'd';
    assert "everyday"[0] == 'e' && "weekdays"[0] == 'w' && "weekends"[0] == 'w' && "weekly"[0] == 'w';
    hide ParseClock, SplitNames, NamedDays, NextWeekday, NumberOf, IsNumber, Decimal, Concat;
  }

  /** A time is no cron line: five words without a colon are longer than any. */
  lemma TimeIsNoCron(raw: Words, time: Words, c: Clock)
    requires TimeWords(time, c) && LowerAll(raw) == time
    ensures !IsCronLine(raw) && Plain(raw) == time && time[0] != ""
    ensures IsDigit(time[0][0]) || time[0][0] == 'n' || time[0][0] == 'm'
  {
    ConcatOpens(time);
    if !DigitFirst(time) { DigitOrWord(time, c); }
    assert "please"[0] == 'p' && "noon"[0] == 'n' && "midday"[0] == 'm' && "midnight"[0] == 'm';
    assert Lower(raw[0]) == time[0] && LowerChar(raw[0][0]) == time[0][0];
    if IsCronLine(raw) {
      AllInLine(raw, time);
      ColonOrShort(Concat(time), c);
    }
  }

  lemma {:induction false} AllInLine(raw: Words, time: Words)
    requires LowerAll(raw) == time && forall i :: 0 <= i < |time| ==> time[i] != ""
    requires forall i, j :: 0 <= i < |raw| && 0 <= j < |raw[i]| ==> IsCronChar(raw[i][j])
    ensures |Concat(time)| >= |time| && ':' !in Concat(time)
  {
    if time == [] {
    } else {
      assert LowerAll(raw[1..]) == time[1..];
      AllInLine(raw[1..], time[1..]);
      assert time[0] == Lower(raw[0]);
      forall j | 0 <= j < |time[0]| ensures time[0][j] != ':' {
        assert IsCronChar(raw[0][j]) && time[0][j] == LowerChar(raw[0][j]);
      }
    }
  }

  lemma ColonOrShort(text: string, c: Clock)
    requires ParseClock(text) == Some(c) && text != "" && IsDigit(text[0])
    ensures ':' in text || |text| <= 4
  {
    hide NumberOf;
    assert "noon"[0] == 'n' && "midday"[0] == 'm' && "midnight"[0] == 'm';
  }

  /** Every plan's cron line, typed as it is, is taken as it is. */
  lemma PlanLinesRead(p: Plan, ctx: Context)
    requires IsPlan(p)
    ensures ParseWhen(FieldsOf(p), ctx) == ValidCron(ctx, FieldsOf(p))
  {
    PlanIsCronLine(p);
    hide IsCronLine, FieldsOf, ParsePlain;
  }

  lemma PlanIsCronLine(p: Plan)
    requires IsPlan(p)
    ensures IsCronLine(FieldsOf(p))
  {
    match p
    case EveryMinutes(n) => CountField(n); StarsAndOne(FieldsOf(p), 0);
    case EveryHours(n) => CountField(n); StarsAndOne(FieldsOf(p), 1);
    case HourlyAt(minute) => NumberField(minute); StarsAndOne(FieldsOf(p), 0);
    case DailyAt(hour, minute, on) =>
      NumberField(minute);
      NumberField(hour);
      if on.Named? { ListIsCron(on.days); }
      hide Decimal, DayList, IsCronChar;
      assert InLine("*") && InLine("1-5") && InLine("0,6") by { Literals(); }
      forall i | 0 <= i < 5 ensures InLine(FieldsOf(p)[i]) {
      }
  }

  predicate InLine(field: string) {
    forall j :: 0 <= j < |field| ==> IsCronChar(field[j])
  }

  lemma Literals()
    ensures InLine("*") && InLine("0") && InLine("1-5") && InLine("0,6")
  {
  }

  lemma NumberField(n: nat)
    ensures InLine(Decimal(n)) && Decimal(n) != "" && !IsLetter(Decimal(n)[0])
  {
  }

  lemma CountField(n: nat)
    ensures InLine("*/" + Decimal(n)) && !IsLetter(("*/" + Decimal(n))[0])
  {
    hide Padded;
  }

  lemma StarsAndOne(fields: Words, at: nat)
    requires |fields| == 5 && at <= 1 && InLine(fields[at]) && fields[0] != "" && !IsLetter(fields[0][0])
    requires (at == 1 ==> fields[0] == "0") && forall i :: at < i < 5 ==> fields[i] == "*"
    ensures IsCronLine(fields)
  {
    Literals();
    forall i | 0 <= i < 5 ensures InLine(fields[i]) {
    }
  }

  lemma ListIsCron(days: seq<nat>)
    requires AreDays(days)
    ensures InLine(DayList(days))
  {
    var parts := seq(|days|, i requires 0 <= i < |days| => Decimal(days[i]));
    hide Decimal;
    JoinIsCron(parts);
  }

  lemma {:induction false} JoinIsCron(parts: seq<string>)
    requires forall i :: 0 <= i < |parts| ==> AllDigits(parts[i])
    ensures forall j :: 0 <= j < |Join(parts, ',')| ==> IsCronChar(Join(parts, ',')[j])
  {
    if |parts| <= 1 {
    } else {
      JoinIsCron(parts[1..]);
    }
  }

  // --- spellings that make no difference ------------------------------------------------------

  /** A phrase is read the same in any letters, and with a `please` before it; only a cron line is
      taken as it is. */
  lemma LettersAndPleaseDoNotMatter(raw: Words, please: string, ctx: Context)
    requires !IsCronLine(raw) && raw != [] && Lower(please) == "please" && Lower(raw[0]) != "please"
    ensures !IsCronLine(LowerAll(raw)) ==> ParseWhen(LowerAll(raw), ctx) == ParseWhen(raw, ctx)
    ensures ParseWhen([please] + raw, ctx) == ParseWhen(raw, ctx)
  {
    hide ParsePlain;
    var polite := [please] + raw;
    assert LowerAll(polite) == ["please"] + LowerAll(raw);
    assert LowerChar(please[0]) == Lower(please)[0] == 'p';
    assert !IsCronLine(polite);
    LowerTwice(raw);
  }

  lemma LowerTwice(ws: Words)
    ensures LowerAll(LowerAll(ws)) == LowerAll(ws)
  {
    forall i | 0 <= i < |ws| ensures Lower(Lower(ws[i])) == Lower(ws[i]) {
      LowerLeaves(Lower(ws[i]));
    }
  }
}
