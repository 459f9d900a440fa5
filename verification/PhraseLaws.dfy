/** Reading undoes saying, and nothing read is in the past. */
module PhraseLaws {
  import opened Text
  import opened Calendar
  import opened Zone
  import opened Phrases
  import opened Saying

  // --- moments are ahead ----------------------------------------------------------

  lemma {:induction false} NamedDaysAreDays(names: Words)
    ensures NamedDays(names).Some? ==> AreDays(NamedDays(names).value)
  {
    if names == [] {
    } else {
      NamedDaysAreDays(names[1..]);
    }
  }

  predicate IsMoment(r: Option<When>) {
    r.Some? && r.value.Ok? && r.value.schedule.Once?
  }

  lemma NamedMomentIsAhead(ws: Words, ctx: Context)
    requires IsZone(ctx.off) && IsMoment(NamedPhrase(ws, ctx))
    ensures NamedPhrase(ws, ctx).value.schedule.at > ctx.now
  {
    hide NextWeekday, ParseClock, SplitNames, Decimal, DayList;
    var NamesAt(names, at) := SplitNames(ws[WordsBefore(ws)..]).value;
    var clock := if at.None? then Some(MORNING) else ParseClock(Concat(at.value));
    NamedDaysAreDays(names);
    assert IsClock(clock.value);
    NextWeekdayIsAhead(ctx.now, NamedDays(names).value[0], clock.value, ctx.off);
  }

  /** Every phrase accepted as one moment names a moment still to come. */
  lemma AcceptedMomentsAreAhead(raw: Words, ctx: Context)
    requires IsZone(ctx.off)
    ensures match ParseWhen(raw, ctx) case Ok(Once(at)) => at > ctx.now case _ => true
  {
    hide IsCronLine, EveryCount, Hourly, GroupPhrase, NamedPhrase, InPhrase, ClockPhrase, DatePhrase;
    var ws := Plain(raw);
    RepeatingPhrases(ws, ctx);
    if IsMoment(NamedPhrase(ws, ctx)) { NamedMomentIsAhead(ws, ctx); }
    OtherMoments(ws, ctx);
  }

  lemma RepeatingPhrases(ws: Words, ctx: Context)
    ensures !IsMoment(EveryCount(ws, ctx)) && !IsMoment(Hourly(ws, ctx)) && !IsMoment(GroupPhrase(ws, ctx))
  {
    hide DayGroup, ParseClock, Decimal;
  }

  lemma OtherMoments(ws: Words, ctx: Context)
    ensures IsMoment(InPhrase(ws, ctx)) ==> InPhrase(ws, ctx).value.schedule.at > ctx.now
    ensures IsMoment(ClockPhrase(ws, ctx)) ==> ClockPhrase(ws, ctx).value.schedule.at > ctx.now
    ensures IsMoment(DatePhrase(ws, ctx)) ==> DatePhrase(ws, ctx).value.schedule.at > ctx.now
    ensures forall r ::
              r in [InPhrase(ws, ctx), ClockPhrase(ws, ctx), DatePhrase(ws, ctx)] && r.Some? && r.value.Ok? ==>
                IsMoment(r)
  {
    InMoment(ws, ctx);
    hide ParseClock, TodayAt, DateUtc, TwoPass, AfterDate, WithoutSeconds, WithoutSpaces, WithoutZ, DayWord, Concat,
        NumberOf, InPhrase;
  }

  lemma InMoment(ws: Words, ctx: Context)
    ensures IsMoment(InPhrase(ws, ctx)) ==> InPhrase(ws, ctx).value.schedule.at > ctx.now
    ensures InPhrase(ws, ctx).Some? && InPhrase(ws, ctx).value.Ok? ==> IsMoment(InPhrase(ws, ctx))
  {
    hide NumberOf;
    if InPhrase(ws, ctx).Some? {
      var n := if IsNumber(ws[1]) then NumberOf(ws[1]) else 1;
      var ms := UnitMs(ws[2]).value;
      assert ms > 0;
      if n >= 1 { assert n * ms >= ms; }
    }
  }

  // --- a cron does not depend on when it is read --------------------------------------

  predicate IsCron(r: Option<When>) {
    r.Some? && r.value.Ok? && r.value.schedule.Cron?
  }

  /** A phrase read as a cron at one moment is read as the same cron at any other. */
  lemma CronIgnoresNow(raw: Words, ctx: Context, now: int)
    requires ParseWhen(raw, ctx).Ok? && ParseWhen(raw, ctx).schedule.Cron?
    ensures ParseWhen(raw, ctx.(now := now)) == ParseWhen(raw, ctx)
  {
    var ws, ctx' := Plain(raw), ctx.(now := now);
    SameRepeating(ws, ctx, now);
    OtherMoments(ws, ctx);
    hide IsCronLine, EveryCount, Hourly, GroupPhrase, NamedPhrase, InPhrase, ClockPhrase, DatePhrase;
    assert InPhrase(ws, ctx) in [InPhrase(ws, ctx), ClockPhrase(ws, ctx), DatePhrase(ws, ctx)];
    assert ClockPhrase(ws, ctx) in [InPhrase(ws, ctx), ClockPhrase(ws, ctx), DatePhrase(ws, ctx)];
    assert DatePhrase(ws, ctx) in [InPhrase(ws, ctx), ClockPhrase(ws, ctx), DatePhrase(ws, ctx)];
  }

  lemma SameRepeating(ws: Words, ctx: Context, now: int)
    ensures EveryCount(ws, ctx.(now := now)) == EveryCount(ws, ctx)
    ensures Hourly(ws, ctx.(now := now)) == Hourly(ws, ctx)
    ensures GroupPhrase(ws, ctx.(now := now)) == GroupPhrase(ws, ctx)
    ensures NamedPhrase(ws, ctx.(now := now)).Some? <==> NamedPhrase(ws, ctx).Some?
    ensures IsCron(NamedPhrase(ws, ctx)) ==> NamedPhrase(ws, ctx.(now := now)) == NamedPhrase(ws, ctx)
  {
    SameCounts(ws, ctx, now);
    SameHourly(ws, ctx, now);
    SameGroup(ws, ctx, now);
    SameNamed(ws, ctx, now);
    hide EveryCount, Hourly, GroupPhrase, NamedPhrase;
  }

  lemma SameCron(fields: Words, ctx: Context, now: int)
    ensures ValidCron(ctx.(now := now), fields) == ValidCron(ctx, fields)
  {
  }

  lemma SameCounts(ws: Words, ctx: Context, now: int)
    ensures EveryCount(ws, ctx.(now := now)) == EveryCount(ws, ctx)
  {
    forall fields ensures ValidCron(ctx.(now := now), fields) == ValidCron(ctx, fields) {
      SameCron(fields, ctx, now);
    }
    hide ValidCron, Decimal, NumberOf, IsNumber, IsMinutes, IsHours, IsDays;
  }

  lemma SameHourly(ws: Words, ctx: Context, now: int)
    ensures Hourly(ws, ctx.(now := now)) == Hourly(ws, ctx)
  {
    hide Decimal, NumberOf, IsNumber;
  }

  lemma SameGroup(ws: Words, ctx: Context, now: int)
    ensures GroupPhrase(ws, ctx.(now := now)) == GroupPhrase(ws, ctx)
  {
    hide DayGroup, ParseClock, Decimal, Concat;
  }

  lemma SameNamed(ws: Words, ctx: Context, now: int)
    ensures NamedPhrase(ws, ctx.(now := now)).Some? <==> NamedPhrase(ws, ctx).Some?
    ensures IsCron(NamedPhrase(ws, ctx)) ==> NamedPhrase(ws, ctx.(now := now)) == NamedPhrase(ws, ctx)
  {
    hide ParseClock, Decimal, SplitNames, NamedDays, NextWeekday, DayList, InOrder, Concat, WordsBefore;
  }

  // --- the round trip --------------------------------------------------------------------

  /** For every cron line the reader's alphabet covers, and at every moment, the phrase
      reads back to exactly the schedule it was made from. */
  lemma CronRoundTrip(fields: Words, ctx: Context, now: int)
    requires IsCronLine(fields) && ctx.accepts(fields)
    ensures ParseWhen(Phrase(Cron(fields), ctx), ctx.(now := now)) == Ok(Cron(fields))
  {
    hide ParsePlain, Describe, Plain;
    var words := Describe(fields);
    if ParseWhen(words, ctx.(now := 0)) == Ok(Cron(fields)) {
      CronIgnoresNow(words, ctx.(now := 0), now);
    }
  }

  // --- words that read back ---------------------------------------------------------------

  datatype DaySet = EveryDay | Weekdays | Weekends | Named(days: seq<nat>)

  /** The schedules there are words for, in their plainest spelling. */
  datatype Plan =
    | EveryMinutes(n: nat)
    | EveryHours(n: nat)
    | HourlyAt(minute: nat)
    | DailyAt(hour: nat, minute: nat, on: DaySet)

  predicate Sorted(days: seq<nat>) {
    forall i, j :: 0 <= i < j < |days| ==> days[i] < days[j]
  }

  predicate IsPlan(p: Plan) {
    match p
    case EveryMinutes(n) => n >= 1 && 60 % n == 0
    case EveryHours(n) => n >= 1 && 24 % n == 0
    case HourlyAt(minute) => minute < 60
    case DailyAt(hour, minute, on) =>
      hour < 24 && minute < 60
      && (on.Named? ==> on.days != [] && AreDays(on.days) && Sorted(on.days)
                        && on.days != [0, 6] && on.days != [1, 2, 3, 4, 5] && |on.days| < 7)
  }

  function DowField(on: DaySet): string {
    match on
    case EveryDay => "*"
    case Weekdays => "1-5"
    case Weekends => "0,6"
    case Named(days) => DayList(days)
  }

  function FieldsOf(p: Plan): Words {
    match p
    case EveryMinutes(n) => ["*/" + Decimal(n), "*", "*", "*", "*"]
    case EveryHours(n) => ["0", "*/" + Decimal(n), "*", "*", "*"]
    case HourlyAt(minute) => [Decimal(minute), "*", "*", "*", "*"]
    case DailyAt(hour, minute, on) => [Decimal(minute), Decimal(hour), "*", "*", DowField(on)]
  }

  lemma LowerLeaves(s: string)
    requires forall i :: 0 <= i < |s| ==> !('A' <= s[i] <= 'Z')
    ensures Lower(s) == s
  {
  }

  lemma ShortDecimal(n: nat)
    requires n < 100
    ensures ShortNumber(Decimal(n)) && NumberOf(Decimal(n)) == n && (n >= 10 ==> |Decimal(n)| == 2)
    ensures |Two(n)| == 2 && IsNumber(Two(n)) && NumberOf(Two(n)) == n
  {
    PaddedReadsBack(n, 1);
    PaddedReadsBack(n, 2);
    PaddedWidth(n, 2);
    assert Pow10(2) == 10 * Pow10(1) && Pow10(1) == 10 * Pow10(0);
    if n >= 10 { assert |Padded(n / 10, 0)| == 1; }
  }

  lemma NotCronWords(words: Words)
    requires words != [] && words[0] != "" && IsLetter(words[0][0])
    ensures !IsCronLine(words)
  {
  }

  lemma PlainPhrase(words: Words)
    requires words != [] && words[0] != "" && 'a' <= words[0][0] <= 'z' && words[0] != "please"
    requires forall i, j :: 0 <= i < |words| && 0 <= j < |words[i]| ==> !('A' <= words[i][j] <= 'Z')
    ensures !IsCronLine(words) && Plain(words) == words
  {
    forall i | 0 <= i < |words| ensures Lower(words[i]) == words[i] {
      LowerLeaves(words[i]);
    }
    assert LowerAll(words) == words;
  }

  lemma CountIsRead(digits: string, ctx: Context)
    requires IsNumber(digits) && NumberOf(digits) >= 1
    ensures 60 % NumberOf(digits) == 0 ==>
              EveryCount(["every", digits, "minutes"], ctx) == Some(ValidCron(ctx,
                  ["*/" + Decimal(NumberOf(digits)), "*", "*", "*", "*"]))
    ensures 24 % NumberOf(digits) == 0 ==>
              EveryCount(["every", digits, "hours"], ctx) == Some(ValidCron(ctx,
                  ["0", "*/" + Decimal(NumberOf(digits)), "*", "*", "*"]))
  {
    hide NumberOf, Decimal, ValidCron;
  }

  lemma CountReadsBack(n: nat, unit: string, fields: Words, ctx: Context)
    requires n >= 1 && ctx.accepts(fields)
    requires (unit == "minutes" && 60 % n == 0 && fields == FieldsOf(EveryMinutes(n)))
          || (unit == "hours" && 24 % n == 0 && fields == FieldsOf(EveryHours(n)))
    ensures ParseWhen(["every", Decimal(n), unit], ctx) == Ok(Cron(fields))
  {
    hide EveryCount, Hourly, GroupPhrase, NamedPhrase, InPhrase, ClockPhrase, DatePhrase, Plain, NumberOf, IsCronLine;
    PaddedReadsBack(n, 1);
    var digits := Decimal(n);
    assert IsNumber(digits) && NumberOf(digits) == n;
    hide Decimal;
    PlainPhrase(["every", digits, unit]);
    CountIsRead(digits, ctx);
  }

  lemma CountIsDescribed(n: nat)
    ensures Describe(FieldsOf(EveryMinutes(n))) == ["every", Decimal(n), "minutes"]
    ensures Describe(FieldsOf(EveryHours(n))) == ["every", Decimal(n), "hours"]
  {
    var digits := Decimal(n);
    var field := "*/" + digits;
    assert field[2..] == digits && field[..2] == "*/" && Step(field);
    assert !IsDigit("*"[0]) && !IsDigit(field[0]);
    hide DaysNamed, NumberOf;
  }

  lemma HourlyIsDescribed(minute: nat)
    requires minute < 60
    ensures Describe(FieldsOf(HourlyAt(minute)))
         == ["every", "hour"] + if minute == 0 then [] else ["at", ":" + Two(minute)]
  {
    ShortDecimal(minute);
    var digits := Decimal(minute);
    assert Decimal(0) == "0";
    assert !StartsWith(digits, "*/");
    hide Decimal, Two, DowWords, DaysNamed;
  }

  lemma HourlyReadsBack(minute: nat, ctx: Context)
    requires minute < 60 && ctx.accepts(FieldsOf(HourlyAt(minute)))
    ensures ParseWhen(Describe(FieldsOf(HourlyAt(minute))), ctx) == Ok(Cron(FieldsOf(HourlyAt(minute))))
  {
    hide NamedPhrase, GroupPhrase, InPhrase, ClockPhrase, DatePhrase, Describe;
    ShortDecimal(minute);
    HourlyIsDescribed(minute);
    LowerLeaves("every");
    LowerLeaves("hour");
    LowerLeaves("at");
    var two := Two(minute);
    LowerLeaves(":" + two);
    assert Decimal(0) == "0";
    hide Decimal, Two;
    assert (":" + two)[1..] == two;
    var hour, words := ["every", "hour"], ["every", "hour", "at", ":" + two];
    assert words[..2] == hour;
    assert Plain(hour) == hour && Plain(words) == words;
    if minute == 0 {
      assert Hourly(hour, ctx) == Some(Ok(Cron(FieldsOf(HourlyAt(minute)))));
    } else {
      assert Hourly(words, ctx) == Some(Ok(Cron(FieldsOf(HourlyAt(minute)))));
    }
  }

  /** A clock time as printed is read as itself. */
  lemma ClockReadsBack(hour: nat, minute: nat)
    requires hour < 24 && minute < 60
    ensures ParseClock(ClockText(hour, minute)) == Some(Clock(hour, minute))
    ensures |ClockText(hour, minute)| == 5 && IsDigit(ClockText(hour, minute)[0])
        && Lower(ClockText(hour, minute)) == ClockText(hour, minute)
    ensures forall i :: 0 <= i < 5 && i != 2 ==> IsDigit(ClockText(hour, minute)[i])
    ensures ClockText(hour, minute)[2] == ':'
  {
    ShortDecimal(hour);
    ShortDecimal(minute);
    hide Padded;
    var text := ClockText(hour, minute);
    assert text[..2] == Two(hour) && text[3..5] == Two(minute) && text[5..] == "";
    assert IsDigit(text[0]) && IsDigit(text[1]);
    LowerLeaves(text);
  }

  lemma GroupReadsBack(word: string, days: string, clock: string, hour: nat, minute: nat, ctx: Context)
    requires (word, days) in [("daily", "*"), ("weekdays", "1-5"), ("weekends", "0,6")]
    requires hour < 24 && minute < 60 && clock == ClockText(hour, minute)
    requires ctx.accepts([Decimal(minute), Decimal(hour), "*", "*", days])
    ensures ParseWhen([word, "at", clock], ctx) == Ok(Cron([Decimal(minute), Decimal(hour), "*", "*", days]))
  {
    ClockReadsBack(hour, minute);
    LowerLeaves(word);
    LowerLeaves("at");
    var words := [word, "at", clock];
    assert Plain(words) == words;
    assert words[2..] == [clock] && Concat([clock]) == clock + "" == clock;
    hide ClockText, ParseClock, Decimal;
  }

  // --- days by name -------------------------------------------------------------------------

  function LowName(day: nat): string
    requires day < 7
  {
    ["sunday", "monday", "tuesday", "wednesday", "thursday", "friday", "saturday"][day]
  }

  lemma LowerName(day: nat)
    requires day < 7
    ensures Lower(DayName(day)) == LowName(day)
  {
    if day == 0 { assert Lower("Sunday") == "sunday"; }
    else if day == 1 { assert Lower("Monday") == "monday"; }
    else if day == 2 { assert Lower("Tuesday") == "tuesday"; }
    else if day == 3 { assert Lower("Wednesday") == "wednesday"; }
    else if day == 4 { assert Lower("Thursday") == "thursday"; }
    else if day == 5 { assert Lower("Friday") == "friday"; }
    else { assert Lower("Saturday") == "saturday"; }
  }

  lemma NameIsDay(day: nat)
    requires day < 7
    ensures DayIndex(LowName(day)) == Some(day)
  {
    if day == 0 { assert "sunday"[..3] == "sun"; }
    else if day == 1 { assert "monday"[..3] == "mon"; }
    else if day == 2 { assert "tuesday"[..3] == "tue"; }
    else if day == 3 { assert "wednesday"[..3] == "wed"; }
    else if day == 4 { assert "thursday"[..3] == "thu"; }
    else if day == 5 { assert "friday"[..3] == "fri"; }
    else { assert "saturday"[..3] == "sat"; }
  }

  lemma LowNameShape(day: nat)
    requires day < 7
    ensures Letters(LowName(day)) && |LowName(day)| >= 6
    ensures LowName(day) != "weekday" && LowName(day) != "weekend" && LowName(day)[0] != 'a'
  {
  }

  lemma WithComma(name: string)
    requires Letters(name)
    ensures Bare(name) == name && Bare(name + ",") == name && EndsInComma(name + ",") && !EndsInComma(name)
  {
    assert (name + ",")[..|name|] == name;
  }

  /** What the reader needs of a word to take it for day `day`, with or without its comma. */
  predicate NamesDay(word: string, day: nat) {
    && Letters(Bare(word)) && DayIndex(Bare(word)) == Some(day) && Bare(word) != "and"
    && |word| >= 6 && word != "weekday" && word != "weekend"
  }

  lemma DayWordReads(day: nat)
    requires day < 7
    ensures NamesDay(Lower(DayName(day)), day) && !EndsInComma(Lower(DayName(day)))
    ensures NamesDay(Lower(DayName(day) + ","), day)
  {
    LowerName(day);
    NameIsDay(day);
    LowNameShape(day);
    WithComma(LowName(day));
    assert Lower(DayName(day) + ",") == Lower(DayName(day)) + ",";
    hide LowName, DayName, DayIndex;
    assert (LowName(day) + ",")[|LowName(day)|] == ',';
  }

  /** Words that are day names or `and`, as the reader sees them. */
  predicate NameWords(ws: Words) {
    forall i :: 0 <= i < |ws| ==> Letters(Bare(ws[i])) && ws[i] != "s"
  }

  /** Words the reader takes for exactly these days, in this order. */
  predicate Reads(ws: Words, days: seq<nat>) {
    ws != [] && NamedDays(ws) == Some(days) && NameWords(ws) && !EndsInComma(ws[|ws| - 1])
  }

  lemma OneReads(word: string, day: nat)
    requires NamesDay(word, day) && !EndsInComma(word)
    ensures Reads([word], [day])
  {
    hide DayIndex, NamesDay, Letters;
    assert Letters(Bare(word)) && DayIndex(Bare(word)) == Some(day) && Bare(word) != "and" && word != "s" by {
      NameFacts(word, day);
    }
    assert [word][1..] == [] && NamedDays([]) == Some([]);
    assert [day] + [] == [day];
  }

  lemma NameFacts(word: string, day: nat)
    requires NamesDay(word, day)
    ensures Letters(Bare(word)) && DayIndex(Bare(word)) == Some(day) && Bare(word) != "and" && word != "s"
  {
  }

  lemma MoreReads(word: string, day: nat, ws: Words, days: seq<nat>)
    requires NamesDay(word, day) && Reads(ws, days)
    ensures Reads([word] + ws, [day] + days)
    ensures Reads(["and"] + ws, days)
  {
    NameFacts(word, day);
    LowerLeavesAnd();
    hide DayIndex, NamesDay, Letters, Bare;
    assert ([word] + ws)[1..] == ws && (["and"] + ws)[1..] == ws;
  }

  lemma {:induction false} DayWordsRead(days: seq<nat>)
    requires days != [] && AreDays(days)
    ensures Reads(LowerAll(DayWords(days)), days) && NamesDay(LowerAll(DayWords(days))[0], days[0])
  {
    hide DayName, LowerChar, Reads, NamesDay;
    var ws := LowerAll(DayWords(days));
    DayWordReads(days[0]);
    if |days| == 1 {
      OneReads(Lower(DayName(days[0])), days[0]);
      assert ws == [Lower(DayName(days[0]))] && days == [days[0]];
    } else if |days| == 2 {
      var first, last := Lower(DayName(days[0])), Lower(DayName(days[1]));
      DayWordReads(days[1]);
      OneReads(last, days[1]);
      MoreReads(first, days[0], [last], [days[1]]);
      MoreReads(first, days[0], ["and"] + [last], [days[1]]);
      LowerLeavesAnd();
      assert ws == [first] + (["and"] + [last]);
      assert days == [days[0]] + [days[1]];
    } else {
      DayWordsRead(days[1..]);
      var first, rest := Lower(DayName(days[0]) + ","), LowerAll(DayWords(days[1..]));
      MoreReads(first, days[0], rest, days[1..]);
      assert ws == [first] + rest;
      assert days == [days[0]] + days[1..];
    }
  }

  lemma LowerLeavesAnd()
    ensures Lower("and") == "and" && Bare("and") == "and" && Letters("and") && "and" != "s"
  {
    LowerLeaves("and");
  }

  // --- names, then a time -----------------------------------------------------------------

  lemma {:induction false} NameRunOf(ws: Words, tail: Words)
    requires NameWords(ws) && tail != [] && !Letters(Bare(tail[0]))
    ensures NameRun(ws + tail) == |ws|
  {
    if ws == [] {
      assert ws + tail == tail;
    } else {
      assert (ws + tail)[1..] == ws[1..] + tail;
      NameRunOf(ws[1..], tail);
    }
  }

  /** Day names followed by `at` and a time whose first word opens with a digit are split just there. */
  lemma NamesThenTime(names: Words, time: Words)
    requires names != [] && NameWords(names) && !EndsInComma(names[|names| - 1])
    requires time != [] && time[0] != "" && IsDigit(time[0][0])
    ensures SplitNames(names + ["at"] + time) == Some(NamesAt(names, Some(time)))
  {
    var ws, n := names + ["at"] + time, |names|;
    NamesStop(names, time);
    AtIsLast(names, time);
    hide NameRun, FirstStop, LastAt, Letters, Bare, NameWords, EndsInComma;
    assert ws[..n] == names && ws[n + 1..] == time;
  }

  /** The run of names is the names and the `at`, and no lone `s` ends it sooner. */
  lemma NamesStop(names: Words, time: Words)
    requires names != [] && NameWords(names) && time != [] && time[0] != "" && IsDigit(time[0][0])
    ensures var ws, n := names + ["at"] + time, |names|;
            NameRun(ws) == n + 1 && FirstStop(ws, 1, n + 1) == None
  {
    var all, n := names + ["at"], |names|;
    var ws := all + time;
    assert Bare("at") == "at" && Letters("at");
    assert Bare(time[0])[0] == time[0][0];
    NameRunOf(all, time);
    hide Letters, Bare, NameRun;
    forall j | 1 <= j < n + 1 ensures !StopsAt(ws, j) {
      assert ws[j] == all[j];
    }
  }

  lemma AtIsLast(names: Words, time: Words)
    requires names != [] && !EndsInComma(names[|names| - 1])
    requires time != [] && time[0] != "" && IsDigit(time[0][0])
    ensures var ws, n := names + ["at"] + time, |names|;
            LastAt(ws, n) == Some(n) && LastAt(ws, n + 1) == Some(n)
  {
    var ws, n := names + ["at"] + time, |names|;
    hide EndsInComma;
    assert ws[n] == "at" && ws[n - 1] == names[n - 1] && ws[n + 1] == time[0] && time[0] != "at";
  }

  /** Day names followed by `at` and a clock as it is printed. */
  lemma NamesThenClock(names: Words, clock: string)
    requires names != [] && NameWords(names) && !EndsInComma(names[|names| - 1])
    requires clock != "" && IsDigit(clock[0])
    ensures SplitNames(names + ["at", clock]) == Some(NamesAt(names, Some([clock])))
  {
    assert names + ["at", clock] == names + ["at"] + [clock];
    NamesThenTime(names, [clock]);
  }

  lemma {:induction false} AllNames(ws: Words)
    requires NameWords(ws)
    ensures NameRun(ws) == |ws|
  {
    if ws == [] {
    } else {
      AllNames(ws[1..]);
    }
  }

  lemma {:induction false} AtIsNoDay(names: Words, rest: Words)
    ensures NamedDays(names + (["at"] + rest)) == None
  {
    var ws := names + (["at"] + rest);
    if names == [] {
      assert ws[0] == "at" && Bare("at") == "at" && DayIndex("at") == None;
    } else {
      AtIsNoDay(names[1..], rest);
      hide DayIndex, Bare;
      assert ws[1..] == names[1..] + (["at"] + rest);
    }
  }

  lemma {:induction false} InOrderOfSorted(days: seq<nat>, from: nat)
    requires AreDays(days) && Sorted(days) && from <= 7 && forall i :: 0 <= i < |days| ==> from <= days[i]
    ensures InOrderFrom(SetOf(days), from) == days
    decreases 7 - from
  {
    assert days != [] ==> from <= days[0] < 7;
    if days == [] {
      InOrderOfNone(from);
    } else if days[0] == from {
      hide SetOf, InOrderFrom;
      InOrderOfSorted(days[1..], from + 1);
      InOrderHead(days, from);
    } else {
      hide SetOf, InOrderFrom;
      InOrderOfSorted(days, from + 1);
      InOrderSkip(days, from);
    }
  }

  lemma {:induction false} InOrderOfNone(from: nat)
    requires from <= 7
    ensures InOrderFrom(SetOf([]), from) == []
    decreases 7 - from
  {
    if from < 7 { InOrderOfNone(from + 1); }
  }

  lemma InOrderHead(days: seq<nat>, from: nat)
    requires from < 7 && days != [] && days[0] == from
    ensures InOrderFrom(SetOf(days), from) == [from] + InOrderFrom(SetOf(days[1..]), from + 1)
  {
    assert days == [from] + days[1..];
    InOrderOnlyAbove(SetOf(days), SetOf(days[1..]), from + 1);
  }

  lemma InOrderSkip(days: seq<nat>, from: nat)
    requires from < 7 && from !in days
    ensures InOrderFrom(SetOf(days), from) == InOrderFrom(SetOf(days), from + 1)
  {
  }

  lemma {:induction false} InOrderOnlyAbove(a: set<nat>, b: set<nat>, from: nat)
    requires from <= 7 && forall d :: from <= d < 7 ==> (d in a <==> d in b)
    ensures InOrderFrom(a, from) == InOrderFrom(b, from)
    decreases 7 - from
  {
    if from == 7 {
    } else {
      InOrderOnlyAbove(a, b, from + 1);
    }
  }

  lemma NotTheEarlierPhrases(ws: Words, ctx: Context)
    requires |ws| >= 4 && ws[0] == "every" && |ws[1]| >= 6 && ws[1] != "weekday" && ws[1] != "weekend"
    ensures EveryCount(ws, ctx) == None && Hourly(ws, ctx) == None && GroupPhrase(ws, ctx) == None
  {
  }

  lemma NamedClock(ws: Words, names: Words, days: seq<nat>, clock: string, at: Clock, ctx: Context)
    requires ws == ["every"] + names + ["at", clock] && NamedDays(names) == Some(days) && days != []
    requires SplitNames(names + ["at", clock]) == Some(NamesAt(names, Some([clock])))
    requires ParseClock(clock) == Some(at)
    ensures NamedPhrase(ws, ctx) == Some(AtClock(ctx, Some(at), DayList(InOrder(SetOf(days)))))
  {
    hide ParseClock, SplitNames, NamedDays, DayList, InOrder, AtClock;
    assert ws[1..] == names + ["at", clock];
    assert Concat([clock]) == clock + Concat([]) == clock;
  }

  lemma {:induction false} NamedReadsBack(days: seq<nat>, clock: string, hour: nat, minute: nat, ctx: Context)
    requires days != [] && AreDays(days) && Sorted(days)
    requires hour < 24 && minute < 60 && clock == ClockText(hour, minute)
    requires ctx.accepts([Decimal(minute), Decimal(hour), "*", "*", DayList(days)])
    ensures ParseWhen(["every"] + DayWords(days) + ["at", clock],
        ctx) == Ok(Cron([Decimal(minute), Decimal(hour), "*", "*", DayList(days)]))
  {
    ClockReadsBack(hour, minute);
    assert InOrder(SetOf(days)) == days by { InOrderOfSorted(days, 0); }
    hide InOrder, SetOf, Lower, ClockText, ParseClock, Decimal, DayWords, IsCronLine, DayList, NumberOf, Plain,
        ParsePlain, LowerAll, NamesDay, Reads;
    DayWordsRead(days);
    var names := LowerAll(DayWords(days));
    NotCronWords(["every"] + DayWords(days) + ["at", clock]);
    NamedIsRead(names, days, clock, Clock(hour, minute), ctx);
    LowerPhrase(DayWords(days), clock);
  }

  lemma NamedIsRead(names: Words, days: seq<nat>, clock: string, at: Clock, ctx: Context)
    requires Reads(names, days) && days != [] && NamesDay(names[0], days[0])
    requires clock != "" && IsDigit(clock[0]) && ParseClock(clock) == Some(at)
    ensures ParsePlain(["every"] + names + ["at", clock], ctx) == AtClock(ctx, Some(at), DayList(InOrder(SetOf(days))))
  {
    hide ParseClock, SplitNames, NamedDays, DayList, InOrder, NumberOf,
         NamedPhrase, EveryCount, Hourly, GroupPhrase, InPhrase, ClockPhrase, DatePhrase;
    var ws := ["every"] + names + ["at", clock];
    NamesThenClock(names, clock);
    assert ws[1] == names[0] && |ws| >= 4;
    NotTheEarlierPhrases(ws, ctx);
    NamedClock(ws, names, days, clock, at, ctx);
  }

  lemma LowerPhrase(names: Words, clock: string)
    requires Lower(clock) == clock
    ensures Plain(["every"] + names + ["at", clock]) == ["every"] + LowerAll(names) + ["at", clock]
  {
    LowerLeaves("every");
    LowerLeaves("at");
    hide LowerChar, Lower;
    assert LowerAll(["every"] + names + ["at", clock]) == ["every"] + LowerAll(names) + ["at", clock];
  }

  // --- how a daily schedule is described --------------------------------------------------

  lemma ListedDays(days: seq<nat>)
    requires days != [] && AreDays(days) && Sorted(days)
    ensures DaysNamed(DayList(days)) == Some(days)
    ensures DayList(days) != "*"
  {
    hide Split, InOrderFrom, AllDays, PartDays, Decimal;
    var parts := seq(|days|, i requires 0 <= i < |days| => Decimal(days[i]));
    forall i | 0 <= i < |days| ensures ',' !in parts[i] && PartDays(parts[i]) == Some({days[i]}) {
      OneDigit(days[i]);
    }
    JoinSplits(parts, ',');
    PartsNameDays(parts, days);
    InOrderOfSorted(days, 0);
    assert days[0] in SetOf(days);
    StarNamesNothing();
  }

  lemma StarNamesNothing()
    ensures DaysNamed("*") == None
  {
    SplitAround("*", "", ',');
    assert ["*"][..0] == [];
    assert PartDays("*") == None;
  }

  lemma OneDigit(day: nat)
    requires day < 7
    ensures Decimal(day) == [DigitOf(day)] && PartDays(Decimal(day)) == Some({day}) && ',' !in Decimal(day)
  {
  }

  lemma OneMorePart(parts: seq<string>, last: string)
    ensures AllDays([]) == Some({})
    ensures AllDays(parts).Some? && PartDays(last).Some? ==>
        AllDays(parts + [last]) == Some(AllDays(parts).value + PartDays(last).value)
  {
    hide PartDays;
    assert (parts + [last])[..|parts|] == parts;
  }

  lemma {:induction false} PartsNameDays(parts: seq<string>, days: seq<nat>)
    requires |parts| == |days| && forall i :: 0 <= i < |days| ==> PartDays(parts[i]) == Some({days[i]})
    ensures AllDays(parts) == Some(SetOf(days))
  {
    hide PartDays, AllDays;
    OneMorePart([], "");
    if days == [] {
      assert parts == [] && SetOf(days) == {};
    } else {
      var n := |days| - 1;
      PartsNameDays(parts[..n], days[..n]);
      OneMorePart(parts[..n], parts[n]);
      assert parts == parts[..n] + [parts[n]] && days == days[..n] + [days[n]];
      assert SetOf(days) == SetOf(days[..n]) + {days[n]};
      assert PartDays(parts[n]) == Some({days[n]});
    }
  }

  lemma GroupParts()
    ensures Split("1-5", ',') == ["1-5"] && PartDays("1-5") == Some({1, 2, 3, 4, 5})
    ensures Split("0,6", ',') == ["0", "6"] && PartDays("0") == Some({0}) && PartDays("6") == Some({6})
  {
    SplitAround("1-5", "", ',');
    FiveDays();
    SplitAround("0", "6", ',');
    SplitAround("6", "", ',');
    assert "0" + [','] + "6" == "0,6";
    hide Split, RangeDays;
  }

  lemma WeekdaysNamed()
    ensures DaysNamed("1-5") == Some([1, 2, 3, 4, 5])
  {
    hide PartDays, AllDays, Split, RangeDays, InOrderFrom;
    GroupParts();
    OneMorePart([], "1-5");
    assert [] + ["1-5"] == ["1-5"];
    var work := [1, 2, 3, 4, 5];
    InOrderOfSorted(work, 0);
    assert SetOf(work) == {} + {1, 2, 3, 4, 5};
  }

  lemma WeekendNamed()
    ensures DaysNamed("0,6") == Some([0, 6])
  {
    hide PartDays, AllDays, Split, RangeDays, InOrderFrom;
    GroupParts();
    OneMorePart([], "0");
    OneMorePart(["0"], "6");
    assert [] + ["0"] == ["0"] && ["0"] + ["6"] == ["0", "6"];
    var rest := [0, 6];
    InOrderOfSorted(rest, 0);
    assert SetOf(rest) == {} + {0} + {6};
  }

  lemma FiveDays()
    ensures RangeDays(1, 5) == {1, 2, 3, 4, 5}
  {
    assert RangeDays(6, 5) == {};
    assert RangeDays(5, 5) == {5};
    assert RangeDays(4, 5) == {4, 5};
    assert RangeDays(3, 5) == {3, 4, 5};
    assert RangeDays(2, 5) == {2, 3, 4, 5};
  }

  /** The words for a daily plan: the group's name, or the days by name. */
  function DailyWords(on: DaySet, clock: string): Words
    requires on.Named? ==> AreDays(on.days)
  {
    match on
    case EveryDay => ["daily", "at", clock]
    case Weekdays => ["weekdays", "at", clock]
    case Weekends => ["weekends", "at", clock]
    case Named(days) => ["every"] + DayWords(days) + ["at", clock]
  }

  lemma ClockIsDescribed(minute: nat, hour: nat, dow: string)
    requires minute < 60 && hour < 24
    ensures CronWords([Decimal(minute), Decimal(hour), "*", "*", dow]) == DowWords(dow, ["at", ClockText(hour, minute)])
  {
    ShortDecimal(hour);
    ShortDecimal(minute);
    var m, h := Decimal(minute), Decimal(hour);
    assert !IsDigit("*"[0]) && IsDigit(m[0]) && IsDigit(h[0]);
    assert m != "*" && h != "*" && !Step(m) && !Step(h);
    hide Decimal, Two, DowWords, NumberOf, ClockText, Step, ShortNumber;
  }

  lemma DailyIsDescribed(p: Plan)
    requires p.DailyAt? && IsPlan(p)
    ensures Describe(FieldsOf(p)) == DailyWords(p.on, ClockText(p.hour, p.minute))
  {
    hide CronWords, DaysNamed, DayWords, ClockText, DayList, Decimal, Padded;
    ClockIsDescribed(p.minute, p.hour, DowField(p.on));
    WeekdaysNamed();
    WeekendNamed();
    if p.on.Named? { ListedDays(p.on.days); }
  }

  /** The words for a plan. */
  function PlanWords(p: Plan): Words
    requires IsPlan(p)
  {
    match p
    case EveryMinutes(n) => ["every", Decimal(n), "minutes"]
    case EveryHours(n) => ["every", Decimal(n), "hours"]
    case HourlyAt(minute) => ["every", "hour"] + if minute == 0 then [] else ["at", ":" + Two(minute)]
    case DailyAt(hour, minute, on) => DailyWords(on, ClockText(hour, minute))
  }

  /** A cron of every kind there are words for is described in them. */
  lemma PlanIsDescribed(p: Plan)
    requires IsPlan(p)
    ensures Describe(FieldsOf(p)) == PlanWords(p)
  {
    hide Describe, FieldsOf, Decimal, Two;
    match p
    case EveryMinutes(n) => CountIsDescribed(n);
    case EveryHours(n) => CountIsDescribed(n);
    case HourlyAt(minute) => HourlyIsDescribed(minute);
    case DailyAt(_, _, _) => DailyIsDescribed(p);
  }

  /** Every plan's own words read back to exactly its cron, so they are its phrase. */
  lemma PlanReadsBack(p: Plan, ctx: Context)
    requires IsPlan(p) && ctx.accepts(FieldsOf(p))
    ensures ParseWhen(Describe(FieldsOf(p)), ctx) == Ok(Cron(FieldsOf(p)))
    ensures Phrase(Cron(FieldsOf(p)), ctx) == Describe(FieldsOf(p))
  {
    OwnWordsReadBack(p, ctx);
    OwnWordsReadBack(p, ctx.(now := 0));
    hide ParseWhen, Describe;
  }

  lemma OwnWordsReadBack(p: Plan, ctx: Context)
    requires IsPlan(p) && ctx.accepts(FieldsOf(p))
    ensures ParseWhen(Describe(FieldsOf(p)), ctx) == Ok(Cron(FieldsOf(p)))
  {
    hide Describe, ParseWhen, Decimal, ClockText, DayWords, DayList;
    match p
    case EveryMinutes(n) =>
      CountIsDescribed(n);
      CountReadsBack(n, "minutes", FieldsOf(p), ctx);
    case EveryHours(n) =>
      CountIsDescribed(n);
      CountReadsBack(n, "hours", FieldsOf(p), ctx);
    case HourlyAt(minute) =>
      HourlyReadsBack(minute, ctx);
    case DailyAt(hour, minute, on) =>
      DailyIsDescribed(p);
      var clock := ClockText(hour, minute);
      match on
      case EveryDay => GroupReadsBack("daily", "*", clock, hour, minute, ctx);
      case Weekdays => GroupReadsBack("weekdays", "1-5", clock, hour, minute, ctx);
      case Weekends => GroupReadsBack("weekends", "0,6", clock, hour, minute, ctx);
      case Named(days) => NamedReadsBack(days, clock, hour, minute, ctx);
  }

  lemma {:induction false} NoSpaces(text: string)
    requires forall i :: 0 <= i < |text| ==> text[i] != ' '
    ensures WithoutSpaces(text) == text
  {
    if text == "" {
    } else {
      NoSpaces(text[1..]);
      assert text == [text[0]] + text[1..];
    }
  }
}
