/** What the phrases for one moment come to, read through the whole parser. */
module MomentLaws {
  import opened Text
  import opened Calendar
  import opened Zone
  import opened Phrases
  import opened PhraseLaws
  import opened NameLaws

  /** A moment, unless it has passed. */
  function IfAhead(at: int, ctx: Context): When {
    if at <= ctx.now then Refused else ValidOnce(at)
  }

  /** "on <weekday> at <time>", for any word for the day and any time opening with a digit, is the
      moment `Zone.NextWeekdayIsEarliest` speaks of. */
  lemma OnWeekdayReads(raw: Words, name: string, day: nat, time: Words, c: Clock, ctx: Context)
    requires Letters(name) && DayIndex(name) == Some(day) && TimeWords(time, c) && DigitFirst(time)
    requires LowerAll(raw) == ["on", name, "at"] + time
    ensures ParseWhen(raw, ctx) == ValidOnce(NextWeekday(ctx.now, day, c, ctx.off))
  {
    DayAlone(name, day);
    hide ParseWhen, TimeWords, NextWeekday, Reads, DigitFirst, LowerAll;
    assert ["on"] + [name] + ["at"] + time == ["on", name, "at"] + time;
    NamedTimesRead(raw, ["on"], [name], [day], time, c, ctx);
  }

  lemma DayAlone(name: string, day: nat)
    requires Letters(name) && DayIndex(name) == Some(day)
    ensures Reads([name], [day])
  {
    WithComma(name);
    assert "and"[..3] == "and" && DayIndex("and") == None;
    assert name != "and" && name != "s";
    hide DayIndex, Letters, Bare;
    assert [name][1..] == [] && NamedDays([]) == Some([]);
    assert [day] + [] == [day];
  }

  // --- a count from now -----------------------------------------------------------------

  /** "in 3 hours", "in an hour": that many of the unit from now, and refused for none. */
  lemma InReads(raw: Words, count: string, unit: string, ctx: Context)
    requires LowerAll(raw) == ["in", count, unit] && UnitMs(unit).Some?
    requires IsNumber(count) || count == "a" || count == "an"
    ensures var n := if IsNumber(count) then NumberOf(count) else 1;
            ParseWhen(raw, ctx) == if n < 1 then Refused else ValidOnce(ctx.now + n * UnitMs(unit).value)
  {
    var ws := ["in", count, unit];
    SaidPlainly(raw, ws);
    hide UnitMs, NumberOf, IsNumber;
    assert InPhrase(ws, ctx).Some?;
    InIsRead(raw, ws, ctx);
    hide ParseWhen;
  }

  lemma InIsRead(raw: Words, ws: Words, ctx: Context)
    requires !IsCronLine(raw) && Plain(raw) == ws && ws != [] && ws[0] == "in"
    ensures InPhrase(ws, ctx).Some? ==> ParseWhen(raw, ctx) == InPhrase(ws, ctx).value
  {
    assert EveryCount(ws, ctx) == None && Hourly(ws, ctx) == None && GroupPhrase(ws, ctx) == None
        && NamedPhrase(ws, ctx) == None;
    hide EveryCount, Hourly, GroupPhrase, NamedPhrase, InPhrase, ClockPhrase, DatePhrase, Plain, IsCronLine;
  }

  // --- clock times ------------------------------------------------------------------------

  /** What may stand before a clock time; a day word with or without `at`. */
  predicate IsDayLead(lead: Words) {
    lead == ["today"] || lead == ["today", "at"] || lead == ["tomorrow"] || lead == ["tomorrow", "at"] || lead == ["at"]
  }

  /** Tomorrow's moment, today's, or the first of the two still to come. */
  function ClockResult(lead: Words, c: Clock, ctx: Context): When {
    var today, tomorrow := TodayAt(ctx, 0, c), TodayAt(ctx, 1, c);
    if lead != [] && lead[0] == "tomorrow" then IfAhead(tomorrow, ctx)
    else if lead != [] && lead[0] == "today" then IfAhead(today, ctx)
    else if today > ctx.now then ValidOnce(today)
    else IfAhead(tomorrow, ctx)
  }

  /** "tomorrow at <time>" is that clock time on the next civil day; "today at <time>" on this one, or
      refused once it has passed; "at <time>" is today's, or tomorrow's once today's has passed. */
  lemma ClockPhrasesRead(raw: Words, lead: Words, time: Words, c: Clock, ctx: Context)
    requires IsDayLead(lead) && TimeWords(time, c) && LowerAll(raw) == lead + time
    ensures ParseWhen(raw, ctx) == ClockResult(lead, c, ctx)
  {
    var ws := lead + time;
    hide ParseWhen, ParseClock, TodayAt, Concat, ClockPhrase, LowerAll, IsCronLine, Plain;
    TimeOpens(time, c);
    assert ws[0] == lead[0];
    assert Says(raw, ws);
    SaidPlainly(raw, ws);
    ClockSaid(ws, lead, time, c, ctx);
    ClockIsRead(raw, ws, ctx);
  }

  /** The first word of a time is none of the words a phrase is led by. */
  lemma TimeOpens(time: Words, c: Clock)
    requires TimeWords(time, c)
    ensures time[0] != "at" && time != ["tonight"]
    ensures !StartsWith(time[0], "today") && !StartsWith(time[0], "tomorrow") && !StartsWith(time[0], "tonight")
  {
    ConcatOpens(time);
    assert IsDigit(time[0][0]) || time[0][0] == 'n' || time[0][0] == 'm' by {
      if !DigitFirst(time) { DigitOrWord(time, c); }
    }
    hide ParseClock, Concat;
    assert "today"[0] == 't' && "tomorrow"[0] == 't' && "tonight"[0] == 't';
  }

  lemma ClockSaid(ws: Words, lead: Words, time: Words, c: Clock, ctx: Context)
    requires IsDayLead(lead) && time != [] && ParseClock(Concat(time)) == Some(c) && ws == lead + time
    requires time[0] != "at" && time != ["tonight"]
    ensures ClockPhrase(ws, ctx) == Some(ClockResult(lead, c, ctx))
  {
    hide ParseClock, TodayAt, Concat;
    assert ws[|lead|..] == time && forall i :: 0 <= i < |lead| ==> ws[i] == lead[i];
    assert |lead| == 2 ==> ws[1..] == ["at"] + time && (["at"] + time)[1..] == time;
    DayWordOf(ws, lead);
  }

  /** The day word of a phrase led by one, and the words after it. */
  lemma DayWordOf(ws: Words, lead: Words)
    requires IsDayLead(lead) && |ws| > |lead| && ws[0] == lead[0]
    ensures lead[0] == "at" ==> DayWord(ws) == None
    ensures lead[0] == "today" ==> DayWord(ws) == Some((Today, ws[1..]))
    ensures lead[0] == "tomorrow" ==> DayWord(ws) == Some((Which.Tomorrow, ws[1..]))
  {
    assert "at"[0] == 'a' && "today"[0] == 't' && "tomorrow"[0] == 't' && "tonight"[0] == 't';
    assert "today"[..5] == "today" && "tomorrow"[..8] == "tomorrow" && "tomorrow"[2] == 'm' && "today"[2] == 'd';
  }

  lemma ClockIsRead(raw: Words, ws: Words, ctx: Context)
    requires !IsCronLine(raw) && Plain(raw) == ws && ws != []
    requires ws[0] == "tomorrow" || ws[0] == "today" || ws[0] == "tonight" || ws[0] == "at"
    ensures ClockPhrase(ws, ctx).Some? ==> ParseWhen(raw, ctx) == ClockPhrase(ws, ctx).value
  {
    NoOtherPhrase(ws, ctx);
    hide EveryCount, Hourly, GroupPhrase, NamedPhrase, InPhrase, ClockPhrase, DatePhrase, Plain, IsCronLine;
  }

  lemma NoOtherPhrase(ws: Words, ctx: Context)
    requires ws != [] && (ws[0] == "tomorrow" || ws[0] == "today" || ws[0] == "tonight" || ws[0] == "at")
    ensures EveryCount(ws, ctx) == None && Hourly(ws, ctx) == None && GroupPhrase(ws, ctx) == None
    ensures NamedPhrase(ws, ctx) == None && InPhrase(ws, ctx) == None
  {
    hide ParseClock, SplitNames, NamedDays, NextWeekday, NumberOf;
  }

  /** "tonight", whatever follows it, is eight in the evening: today's, or tomorrow's once that has passed. */
  lemma TonightReads(raw: Words, rest: Words, ctx: Context)
    requires LowerAll(raw) == ["tonight"] + rest || LowerAll(raw) == ["at", "tonight"]
    ensures ParseWhen(raw, ctx) == ClockResult([], Clock(20, 0), ctx)
  {
    var ws := LowerAll(raw);
    hide ParseWhen, LowerAll, IsCronLine, Plain, ClockPhrase, TodayAt;
    assert ws[0] == "tonight" || ws[0] == "at";
    assert Says(raw, ws);
    SaidPlainly(raw, ws);
    TonightSaid(ws, ctx);
    ClockIsRead(raw, ws, ctx);
  }

  lemma TonightSaid(ws: Words, ctx: Context)
    requires ws != [] && (ws[0] == "tonight" || ws == ["at", "tonight"])
    ensures ClockPhrase(ws, ctx) == Some(ClockResult([], Clock(20, 0), ctx))
  {
    hide ParseClock, TodayAt, Concat;
    assert "tonight"[..7] == "tonight" && "tonight"[2] == 'n' && "today"[2] == 'd' && "tomorrow"[2] == 'm'
        && "at"[0] == 'a';
    if ws[0] == "tonight" {
      assert DayWord(ws) == if |ws| == 1 then None else Some((Tonight, ws[1..]));
    } else {
      assert DayWord(ws) == None && ws[1..] == ["tonight"];
    }
  }

  // --- dates --------------------------------------------------------------------------------

  /** A date alone, or with a time after a `t`, a space or `at`. */
  datatype Written = Alone | AfterT | AfterSpace | AfterAt

  function DateWords(date: string, text: string, how: Written): Words {
    match how
    case Alone => [date]
    case AfterT => [date + "t" + text]
    case AfterSpace => [date, text]
    case AfterAt => [date, "at", text]
  }

  function DateOf(date: string): Date
    requires |date| == 10 && IsDate(date)
  {
    Date(NumberOf(date[..4]), NumberOf(date[5..7]), NumberOf(date[8..10]))
  }

  /** The time of a date phrase: seconds and a closing `z` aside, what the clock reader makes of it. */
  predicate TimeText(text: string, c: Clock) {
    text != "" && ' ' !in text && ParseClock(WithoutSeconds(WithoutZ(text))) == Some(c)
  }

  predicate EndsInZ(text: string) {
    text != "" && text[|text| - 1] == 'z'
  }

  /** A date and a time, however joined and with `on` or without, is that moment in the zone, or in UTC
      if the time ends in `Z`, and refused once passed; a date alone is at nine in the morning. */
  lemma DatesRead(raw: Words, on: bool, date: string, text: string, how: Written, c: Clock, ctx: Context)
    requires |date| == 10 && IsDate(date) && (if how.Alone? then c == Clock(9, 0) && text == "" else TimeText(text, c))
    requires LowerAll(raw) == (if on then ["on"] else []) + DateWords(date, text, how)
    ensures var asUtc := DateUtc(DateOf(date), c);
            ParseWhen(raw, ctx) == IfAhead(if EndsInZ(text) then asUtc else TwoPass(ctx.off, asUtc), ctx)
  {
    var words := DateWords(date, text, how);
    var ws := (if on then ["on"] else []) + words;
    hide ParseWhen, LowerAll, IsCronLine, Plain, ParseClock, DateUtc, TwoPass, NumberOf, IsDate, TimeText, DatePhrase;
    DateOpens(date, text, how);
    DateSays(raw, ws, on, words);
    assert words == if on then ws[1..] else ws;
    DateSaid(ws, on, date, text, how, c, ctx);
    DateIsLast(raw, ws, on, words, ctx);
  }

  lemma DateOpens(date: string, text: string, how: Written)
    requires |date| == 10 && IsDate(date)
    ensures var word := DateWords(date, text, how)[0];
            |word| >= 10 && IsDate(word) && word[..10] == date && IsDigit(word[0]) && word[4] == '-'
  {
    hide NumberOf;
    var word := DateWords(date, text, how)[0];
    assert word[..10] == date;
    assert word[..4] == date[..4] && word[5..7] == date[5..7] && word[8..10] == date[8..10] && word[4] == date[4]
        && word[7] == date[7];
    assert word[0] == date[..4][0];
  }

  /** Five words only with the `on`, so no cron line; and no `please`. */
  lemma DateSays(raw: Words, ws: Words, on: bool, words: Words)
    requires LowerAll(raw) == ws && ws == (if on then ["on"] else []) + words
    requires 1 <= |words| <= 4 && words[0] != "" && IsDigit(words[0][0])
    ensures !IsCronLine(raw) && Plain(raw) == ws
  {
    if |raw| == 5 {
      assert on && Lower(raw[0]) == "on" && "on"[0] == 'o';
      assert Lower(raw[0])[0] == LowerChar(raw[0][0]);
    }
    hide LowerAll;
    assert ws[0] == if on then "on" else words[0];
    assert "please"[0] == 'p';
  }

  lemma DateSaid(ws: Words, on: bool, date: string, text: string, how: Written, c: Clock, ctx: Context)
    requires |date| == 10 && IsDate(date) && (if how.Alone? then c == MORNING && text == "" else TimeText(text, c))
    requires ws == (if on then ["on"] else []) + DateWords(date, text, how) && (ws[0] == "on" <==> on)
    requires var word := DateWords(date, text, how)[0]; |word| >= 10 && IsDate(word) && word[..10] == date
    ensures var asUtc := DateUtc(DateOf(date), c);
            DatePhrase(ws, ctx) == Some(IfAhead(if EndsInZ(text) then asUtc else TwoPass(ctx.off, asUtc), ctx))
  {
    hide ParseClock, DateUtc, TwoPass, NumberOf, IsDate, AfterDate, WithoutSeconds, WithoutSpaces, WithoutZ, TimeText,
        EndsInZ;
    var words := DateWords(date, text, how);
    assert words == if on then ws[1..] else ws;
    if !how.Alone? { TimeIsRead(text, c); }
    AfterIs(date, text, how);
    hide DateWords;
    var word := words[0];
    assert word[..4] == word[..10][..4] && word[5..7] == word[..10][5..7] && word[8..10] == word[..10][8..10];
    ZAndSpaces(text);
  }

  lemma ZAndSpaces(text: string)
    ensures WithoutZ(text) != text <==> EndsInZ(text)
    ensures WithoutSpaces("") == ""
  {
  }

  lemma AfterIs(date: string, text: string, how: Written)
    requires |date| == 10 && (how.Alone? ==> text == "") && (how.AfterSpace? || how.AfterT? || how.AfterAt? ==>
        text != "")
    ensures AfterDate(DateWords(date, text, how)) == text
  {
    var words := DateWords(date, text, how);
    match how
    case Alone => assert words[0][10..] == "" && words[1..] == [];
    case AfterT =>
      assert words[0][10..] == "t" + text && words[0][10..][1..] == text && words[1..] == [];
      assert [text] + words[1..] == [text];
    case AfterSpace => assert words[0][10..] == "" && words[1..] == [text];
    case AfterAt => assert words[0][10..] == "" && words[2..] == [text];
  }

  lemma TimeIsRead(text: string, c: Clock)
    requires TimeText(text, c)
    ensures text != "" && WithoutSpaces(text) != ""
        && ParseClock(WithoutSpaces(WithoutSeconds(WithoutZ(text)))) == Some(c)
  {
    hide ParseClock, NumberOf;
    var bare := WithoutZ(text);
    assert ' ' !in bare && ' ' !in WithoutSeconds(bare);
    NoSpaces(WithoutSeconds(bare));
    NoSpaces(text);
  }

  lemma DateIsLast(raw: Words, ws: Words, on: bool, words: Words, ctx: Context)
    requires !IsCronLine(raw) && Plain(raw) == ws && ws == (if on then ["on"] else []) + words && words != []
    requires |words[0]| >= 10 && IsDigit(words[0][0]) && words[0][4] == '-' && IsDate(words[0])
    ensures DatePhrase(ws, ctx).Some? ==> ParseWhen(raw, ctx) == DatePhrase(ws, ctx).value
  {
    hide IsCronLine, Plain, ParseWhen, DatePhrase;
    NoClockBefore(ws, on, words);
    NoPhraseBefore(ws, on, words, ctx);
    DateFallsThrough(raw, ws, ctx);
  }

  lemma DateFallsThrough(raw: Words, ws: Words, ctx: Context)
    requires !IsCronLine(raw) && Plain(raw) == ws
    requires EveryCount(ws, ctx) == None && Hourly(ws, ctx) == None && GroupPhrase(ws, ctx) == None
    requires NamedPhrase(ws, ctx) == None && InPhrase(ws, ctx) == None && ClockPhrase(ws, ctx) == None
    ensures DatePhrase(ws, ctx).Some? ==> ParseWhen(raw, ctx) == DatePhrase(ws, ctx).value
  {
    hide EveryCount, Hourly, GroupPhrase, NamedPhrase, InPhrase, ClockPhrase, DatePhrase, Plain, IsCronLine;
  }

  /** A date is no clock time. */
  lemma NoClockBefore(ws: Words, on: bool, words: Words)
    requires ws == (if on then ["on"] else []) + words && words != []
    requires |words[0]| >= 10 && IsDigit(words[0][0]) && words[0][4] == '-' && IsDate(words[0])
    ensures ParseClock(Concat(ws)) == None
  {
    ConcatOpens(ws);
    var text := Concat(ws);
    assert text == ws[0] + Concat(ws[1..]);
    if on {
      NotAClock(text);
    } else {
      var head := words[0][..4];
      assert IsDigit(head[1]) && IsDigit(head[2]);
      assert text[1] == head[1] && text[2] == head[2];
      DigitsAreNoClock(text);
    }
  }

  lemma DigitsAreNoClock(text: string)
    requires |text| >= 10 && IsDigit(text[0]) && IsDigit(text[1]) && IsDigit(text[2])
    ensures ParseClock(text) == None
  {
    hide NumberOf;
    assert "noon"[0] == 'n' && "midday"[0] == 'm' && "midnight"[0] == 'm';
    assert text[2..][0] == text[2];
  }

  lemma NoPhraseBefore(ws: Words, on: bool, words: Words, ctx: Context)
    requires ws == (if on then ["on"] else []) + words && words != [] && words[0] != "" && IsDigit(words[0][0])
    requires ParseClock(Concat(ws)) == None
    ensures EveryCount(ws, ctx) == None && Hourly(ws, ctx) == None && GroupPhrase(ws, ctx) == None
    ensures NamedPhrase(ws, ctx) == None && InPhrase(ws, ctx) == None && ClockPhrase(ws, ctx) == None
  {
    assert ws[0] == if on then "on" else words[0];
    assert on ==> ws[1..] == words && ws[1] == words[0];
    assert !Letters(Bare(words[0])) by { assert Bare(words[0])[0] == words[0][0]; }
    assert NameRun(words) == 0;
    hide ParseClock, NumberOf, TodayAt, Concat, NextWeekday, Letters, Bare, NameRun, ClockPhrase;
    assert "every"[0] == 'e' && "on"[0] == 'o' && "weekly"[0] == 'w' && "in"[0] == 'i' && "hourly"[0] == 'h'
        && "daily"[0] == 'd';
    NoClockPhrase(ws, ctx);
  }

  lemma NoClockPhrase(ws: Words, ctx: Context)
    requires ws != [] && ws[0] != "" && (IsDigit(ws[0][0]) || ws[0] == "on") && ParseClock(Concat(ws)) == None
    ensures ClockPhrase(ws, ctx) == None
  {
    hide ParseClock, TodayAt, Concat;
    assert "on"[0] == 'o' && "at"[0] == 'a' && "today"[0] == 't' && "tomorrow"[0] == 't' && "tonight"[0] == 't';
  }
}
