/** Days by name, then a time of any spelling: when such a phrase is read, and as what. */
module NameLaws {
  import opened Text
  import opened Zone
  import opened Phrases
  import opened PhraseLaws

  // --- phrases and their lower case -------------------------------------------------

  /** `ws` is the phrase in lower case, and it does not open like a cron line. */
  predicate Says(raw: Words, ws: Words) {
    LowerAll(raw) == ws && ws != [] && ws[0] != "" && 'a' <= ws[0][0] <= 'z' && ws[0] != "please"
  }

  lemma SaidPlainly(raw: Words, ws: Words)
    requires Says(raw, ws)
    ensures !IsCronLine(raw) && Plain(raw) == ws
  {
    assert Lower(raw[0]) == ws[0] && LowerChar(raw[0][0]) == ws[0][0];
  }

  /** Words that spell a time, together. */
  predicate TimeWords(time: Words, c: Clock) {
    time != [] && (forall i :: 0 <= i < |time| ==> time[i] != "") && ParseClock(Concat(time)) == Some(c)
  }

  predicate DigitFirst(time: Words)
    requires time != [] && time[0] != ""
  {
    IsDigit(time[0][0])
  }

  lemma ConcatOpens(time: Words)
    requires time != [] && time[0] != ""
    ensures Concat(time) != "" && Concat(time)[0] == time[0][0]
  {
    assert Concat(time) == time[0] + Concat(time[1..]);
  }

  /** A time that does not open with a digit is one of the three spelt in letters. */
  lemma DigitOrWord(time: Words, c: Clock)
    requires TimeWords(time, c) && !DigitFirst(time)
    ensures Concat(time) == "noon" || Concat(time) == "midday" || Concat(time) == "midnight"
  {
    ConcatOpens(time);
  }

  lemma {:induction false} LettersThroughout(time: Words)
    requires forall i :: 0 <= i < |time| ==> time[i] != ""
    requires forall j :: 0 <= j < |Concat(time)| ==> 'a' <= Concat(time)[j] <= 'z' && Concat(time)[j] != 's'
    ensures NameWords(time) && (time != [] ==> !EndsInComma(time[|time| - 1]))
  {
    if time == [] {
    } else {
      var rest := Concat(time[1..]);
      var text := time[0] + rest;
      assert text == Concat(time);
      assert forall j :: 0 <= j < |time[0]| ==> time[0][j] == text[j];
      assert forall j :: 0 <= j < |rest| ==> rest[j] == text[|time[0]| + j];
      LettersThroughout(time[1..]);
      WithComma(time[0]);
      assert time[0][0] != 's';
    }
  }

  // --- what may stand before the names -------------------------------------------------

  predicate IsLead(lead: Words) {
    lead == ["every"] || lead == ["on"] || lead == ["weekly", "on"]
  }

  /** One moment after `on`, a cron after the others. */
  function NamedResult(lead: Words, days: seq<nat>, c: Clock, ctx: Context): When
    requires days != [] && IsClock(c)
  {
    if lead == ["on"] then ValidOnce(NextWeekday(ctx.now, days[0], c, ctx.off))
    else AtClock(ctx, Some(c), DayList(InOrder(SetOf(days))))
  }

  /** What day names cannot be taken for. */
  predicate OnlyAName(word: string) {
    && !IsNumber(word) && word != "hour" && word != "day" && !StartsWith(word, "weekday")
        && !StartsWith(word, "weekend")
    && word != "" && !IsDigit(word[0])
  }

  lemma NamesAreOnlyNames(names: Words, days: seq<nat>)
    requires Reads(names, days)
    ensures OnlyAName(names[0])
  {
    var word := names[0];
    assert Bare(word) == "and" || DayIndex(Bare(word)).Some?;
    assert Bare(word) != "" && Bare(word)[0] == word[0];
    if StartsWith(word, "weekday") || StartsWith(word, "weekend") { WeekIsNoDay(word); }
    hide StartsWith;
  }

  lemma WeekIsNoDay(word: string)
    requires StartsWith(word, "weekday") || StartsWith(word, "weekend")
    ensures Bare(word) != "and" && DayIndex(Bare(word)) == None
  {
    var head := word[..7];
    assert word[0] == head[0] && word[1] == head[1] && word[2] == head[2];
    assert Bare(word)[..3] == word[..3] == "wee";
  }

  lemma NoEarlierPhrase(ws: Words, lead: Words, ctx: Context)
    requires IsLead(lead) && |ws| > |lead| && ws[..|lead|] == lead && OnlyAName(ws[|lead|])
    ensures EveryCount(ws, ctx) == None && Hourly(ws, ctx) == None && GroupPhrase(ws, ctx) == None
  {
    var word := ws[|lead|];
    assert forall i :: 0 <= i < |lead| ==> ws[i] == ws[..|lead|][i];
    NoGroupWord(word);
    hide OnlyAName;
    if lead == ["every"] {
      AfterEvery(ws, ctx);
    } else {
      AfterOn(ws, ctx);
    }
  }

  lemma NoGroupWord(word: string)
    requires OnlyAName(word)
    ensures !IsNumber(word) && word != "hour" && word != "day"
    ensures word != "weekday" && word != "weekdays" && word != "weekend" && word != "weekends"
  {
    assert "weekdays"[..7] == "weekday" && "weekends"[..7] == "weekend";
    assert "weekday"[..7] == "weekday" && "weekend"[..7] == "weekend";
  }

  lemma AfterEvery(ws: Words, ctx: Context)
    requires |ws| >= 2 && ws[0] == "every" && !IsNumber(ws[1]) && ws[1] != "hour"
    requires ws[1] != "day" && ws[1] != "weekday" && ws[1] != "weekend"
    ensures EveryCount(ws, ctx) == None && Hourly(ws, ctx) == None && GroupPhrase(ws, ctx) == None
  {
    hide ParseClock, NumberOf, IsNumber;
  }

  lemma AfterOn(ws: Words, ctx: Context)
    requires |ws| >= 2 && (ws[0] == "weekly" || (ws[0] == "on" && ws[1] != "weekdays" && ws[1] != "weekends"))
    ensures EveryCount(ws, ctx) == None && Hourly(ws, ctx) == None && GroupPhrase(ws, ctx) == None
  {
    hide ParseClock, NumberOf, IsNumber;
  }

  lemma NoLaterPhrase(ws: Words, lead: Words, ctx: Context)
    requires IsLead(lead) && |ws| > |lead| && ws[..|lead|] == lead && OnlyAName(ws[|lead|])
    ensures InPhrase(ws, ctx) == None && ClockPhrase(ws, ctx) == None && DatePhrase(ws, ctx) == None
  {
    assert forall i :: 0 <= i < |lead| ==> ws[i] == ws[..|lead|][i];
    ConcatOpens(ws);
    NotAClock(Concat(ws));
    NotADate(ws[|lead|]);
    NotADate(ws[0]);
    hide ParseClock, NumberOf, TodayAt, IsDate, Concat;
    assert "every"[0] == 'e' && "on"[0] == 'o' && "weekly"[0] == 'w';
    assert !StartsWith(ws[0], "today") && !StartsWith(ws[0], "tomorrow") && !StartsWith(ws[0], "tonight");
  }

  lemma NotAClock(text: string)
    requires text != "" && (text[0] == 'e' || text[0] == 'o' || text[0] == 'w')
    ensures ParseClock(text) == None
  {
    assert "noon"[0] == 'n' && "midday"[0] == 'm' && "midnight"[0] == 'm';
  }

  lemma NotADate(word: string)
    requires word != "" && !IsDigit(word[0])
    ensures !IsDate(word)
  {
    if |word| >= 4 { assert word[..4][0] == word[0]; }
  }

  // --- the names, with a time or without -------------------------------------------------

  /** `rest`, the words after the lead, splits into names and perhaps a time. */
  lemma NamedWith(ws: Words, lead: Words, rest: Words, names: Words, days: seq<nat>, at: Option<Words>, c: Clock,
                  ctx: Context)
    requires IsLead(lead) && ws == lead + rest && rest != [] && OnlyAName(rest[0])
    requires SplitNames(rest) == Some(NamesAt(names, at)) && NamedDays(names) == Some(days) && days != [] && IsClock(c)
    requires if at.Some? then ParseClock(Concat(at.value)) == Some(c) else c == MORNING
    ensures NamedPhrase(ws, ctx) == Some(NamedResult(lead, days, c, ctx))
  {
    hide ParseClock, SplitNames, NamedDays, NextWeekday, DayList, InOrder, AtClock, Concat;
    assert ws[|lead|..] == rest && ws[|lead|] == rest[0];
    assert forall i :: 0 <= i < |lead| ==> ws[i] == lead[i];
  }

  lemma NamedNone(ws: Words, lead: Words, rest: Words, names: Words, at: Option<Words>, ctx: Context)
    requires IsLead(lead) && ws == lead + rest && rest != []
    requires SplitNames(rest) == Some(NamesAt(names, at)) && NamedDays(names) == None
    ensures NamedPhrase(ws, ctx) == None
  {
    hide ParseClock, SplitNames, NamedDays, NextWeekday, DayList, InOrder, AtClock, Concat;
    assert ws[|lead|..] == rest;
    assert forall i :: 0 <= i < |lead| ==> ws[i] == lead[i];
  }

  /** In any letters, days by name and a time are read exactly when the time opens with a digit: a
      time spelt out is taken for more day names, and nothing else reads the phrase. */
  lemma NamedTimesRead(raw: Words, lead: Words, names: Words, days: seq<nat>, time: Words, c: Clock, ctx: Context)
    requires IsLead(lead) && Reads(names, days) && days != [] && TimeWords(time, c)
    requires LowerAll(raw) == lead + names + ["at"] + time
    ensures ParseWhen(raw, ctx) == if DigitFirst(time) then NamedResult(lead, days, c, ctx) else Refused
  {
    var ws, rest := lead + names + ["at"] + time, names + (["at"] + time);
    assert ws == lead + rest && rest != [] && rest[0] == names[0];
    hide ParseWhen, Reads, ParseClock, NamedPhrase, NamedResult, Letters, Concat, IsLead, OnlyAName, Says;
    LeadSays(raw, ws, lead, rest, names, days);
    if DigitFirst(time) {
      DigitTimeNamed(ws, lead, rest, names, days, time, c, ctx);
    } else {
      DigitOrWord(time, c);
      WordTimeNamed(ws, lead, rest, names, days, time, ctx);
    }
    OnlyNamed(raw, ws, lead, ctx);
  }

  lemma LeadSays(raw: Words, ws: Words, lead: Words, rest: Words, names: Words, days: seq<nat>)
    requires IsLead(lead) && Reads(names, days) && LowerAll(raw) == ws && ws == lead + rest && rest != []
        && rest[0] == names[0]
    ensures Says(raw, ws) && OnlyAName(rest[0]) && ws[..|lead|] == lead && ws[|lead|] == rest[0]
  {
    NamesAreOnlyNames(names, days);
    hide LowerAll, Reads;
    assert ws[0] == lead[0];
  }

  lemma OnlyNamed(raw: Words, ws: Words, lead: Words, ctx: Context)
    requires IsLead(lead) && |ws| > |lead| && ws[..|lead|] == lead && OnlyAName(ws[|lead|]) && Says(raw, ws)
    ensures ParseWhen(raw, ctx) == if NamedPhrase(ws, ctx).Some? then NamedPhrase(ws, ctx).value else Refused
  {
    hide NamedPhrase, EveryCount, Hourly, GroupPhrase, InPhrase, ClockPhrase, DatePhrase, Plain, IsCronLine, OnlyAName;
    SaidPlainly(raw, ws);
    NoEarlierPhrase(ws, lead, ctx);
    NoLaterPhrase(ws, lead, ctx);
  }

  lemma DigitTimeNamed(ws: Words, lead: Words, rest: Words, names: Words, days: seq<nat>, time: Words, c: Clock,
                       ctx: Context)
    requires IsLead(lead) && Reads(names, days) && days != [] && TimeWords(time, c) && DigitFirst(time)
    requires ws == lead + rest && rest == names + (["at"] + time) && OnlyAName(rest[0])
    ensures NamedPhrase(ws, ctx) == Some(NamedResult(lead, days, c, ctx))
  {
    hide SplitNames, NamedPhrase, ParseClock, NamedDays, Concat, OnlyAName, IsLead, NameWords, NamedResult;
    NamesThenTime(names, time);
    assert names + ["at"] + time == rest;
    hide EndsInComma, DigitFirst;
    NamedWith(ws, lead, rest, names, days, Some(time), c, ctx);
  }

  lemma WordTimeNamed(ws: Words, lead: Words, rest: Words, names: Words, days: seq<nat>, time: Words, ctx: Context)
    requires IsLead(lead) && Reads(names, days) && time != [] && forall i :: 0 <= i < |time| ==> time[i] != ""
    requires Concat(time) == "noon" || Concat(time) == "midday" || Concat(time) == "midnight"
    requires ws == lead + rest && rest == names + (["at"] + time)
    ensures NamedPhrase(ws, ctx) == None
  {
    hide NamedPhrase, SplitNames, NamedDays, IsLead;
    LettersThroughout(time);
    AllAreNames(names, days, time);
    AtIsNoDay(names, time);
    NamedNone(ws, lead, rest, rest, None, ctx);
  }

  lemma AllAreNames(names: Words, days: seq<nat>, time: Words)
    requires Reads(names, days) && NameWords(time) && time != [] && !EndsInComma(time[|time| - 1])
    ensures SplitNames(names + (["at"] + time)) == Some(NamesAt(names + (["at"] + time), None))
  {
    var all := names + (["at"] + time);
    WithComma("at");
    assert Letters("at") && "at" != "s";
    hide NamedDays, Letters, Bare;
    assert NameWords(all);
    assert all[|all| - 1] == time[|time| - 1];
    Undivided(all);
  }

  lemma Undivided(names: Words)
    requires names != [] && NameWords(names) && !EndsInComma(names[|names| - 1])
    ensures SplitNames(names) == Some(NamesAt(names, None))
  {
    AllNames(names);
    hide Letters, Bare;
    assert FirstStop(names, 1, |names|) == None;
  }

  /** Without a time, days by name are at nine in the morning, whatever stands before them. */
  lemma NamedMorningReads(raw: Words, lead: Words, names: Words, days: seq<nat>, ctx: Context)
    requires IsLead(lead) && Reads(names, days) && days != [] && LowerAll(raw) == lead + names
    ensures ParseWhen(raw, ctx) == NamedResult(lead, days, Clock(9, 0), ctx)
  {
    hide ParseWhen, NamedPhrase, NamedResult, Letters, SplitNames, NamedDays, NameWords, EndsInComma;
    var ws := lead + names;
    Undivided(names);
    LeadSays(raw, ws, lead, names, names, days);
    hide Reads, OnlyAName;
    NamedWith(ws, lead, names, names, days, None, MORNING, ctx);
    OnlyNamed(raw, ws, lead, ctx);
  }

  /** The documented phrase, its time spelt out: refused. */
  lemma MondayAtNoonIsRefused(ctx: Context)
    ensures ParseWhen(["every", "monday", "at", "noon"], ctx) == Refused
  {
    var raw := ["every", "monday", "at", "noon"];
    assert Concat(["noon"]) == "noon" + Concat([]) == "noon";
    assert TimeWords(["noon"], Clock(12, 0));
    MondayReads();
    assert LowerAll(raw) == raw by {
      forall i | 0 <= i < 4 ensures Lower(raw[i]) == raw[i] { LowerLeaves(raw[i]); }
    }
    hide ParseWhen, Reads, TimeWords;
    assert raw == ["every"] + ["monday"] + ["at"] + ["noon"];
    NamedTimesRead(raw, ["every"], ["monday"], [1], ["noon"], Clock(12, 0), ctx);
  }

  /** A comma before the `at` keeps it from ending the names, so a time in digits is refused too. */
  lemma CommaBeforeAtIsRefused(ctx: Context)
    ensures ParseWhen(["every", "monday,", "at", "9"], ctx) == Refused
  {
    var raw := ["every", "monday,", "at", "9"];
    assert LowerAll(raw) == raw by {
      forall i | 0 <= i < 4 ensures Lower(raw[i]) == raw[i] { LowerLeaves(raw[i]); }
    }
    CommaKeepsAt();
    assert OnlyAName("monday,") by { assert !IsDigit("monday,"[0]) && "monday,"[0] == 'm'; }
    assert raw[..1] == ["every"];
    hide ParseWhen, SplitNames, LowerAll, OnlyAName;
    assert raw[1..] == ["monday,", "at", "9"];
    assert NamedPhrase(raw, ctx) == None;
    OnlyNamed(raw, raw, ["every"], ctx);
  }

  lemma CommaKeepsAt()
    ensures SplitNames(["monday,", "at", "9"]) == None
  {
    var ws := ["monday,", "at", "9"];
    WithComma("monday");
    assert "monday" + "," == "monday,";
    WithComma("at");
    assert !Letters(Bare("9"));
    hide Letters, Bare;
    assert ws[1..] == ["at", "9"] && ws[1..][1..] == ["9"];
    assert NameRun(["9"]) == 0;
    assert NameRun(["at", "9"]) == 1;
    assert NameRun(ws) == 2;
    assert FirstStop(ws, 1, 2) == None;
    assert LastAt(ws, 1) == None;
  }

  /** A lone `s` is taken for the plural of the name before it, and what follows for a time. */
  lemma LoneSEndsTheNames(ctx: Context)
    ensures ParseWhen(["every", "monday", "s", "at", "noon"], ctx) == AtClock(ctx, Some(Clock(12, 0)), "1")
  {
    hide ParseWhen, SplitNames, OnlyAName, Reads, NamedDays, DayList, InOrder, AtClock, NamedPhrase, ParseClock, Says;
    var rest := ["monday", "s", "at", "noon"];
    var raw := ["every"] + rest;
    LoneSSays(raw);
    MondayReads();
    NamesAreOnlyNames(["monday"], [1]);
    LoneSSplits();
    MondayAlone();
    NoonIsTwelve();
    hide Concat;
    NamedWith(raw, ["every"], rest, ["monday"], [1], Some(["noon"]), Clock(12, 0), ctx);
    OnlyNamed(raw, raw, ["every"], ctx);
    assert raw == ["every", "monday", "s", "at", "noon"];
  }

  lemma NoonIsTwelve()
    ensures ParseClock(Concat(["noon"])) == Some(Clock(12, 0))
  {
    assert Concat(["noon"]) == "noon" + Concat([]) == "noon";
  }

  lemma LoneSSays(raw: Words)
    requires raw == ["every"] + ["monday", "s", "at", "noon"]
    ensures Says(raw, raw)
  {
    assert LowerAll(raw) == raw by {
      forall i | 0 <= i < 5 ensures Lower(raw[i]) == raw[i] { LowerLeaves(raw[i]); }
    }
  }

  lemma LoneSSplits()
    ensures SplitNames(["monday", "s", "at", "noon"]) == Some(NamesAt(["monday"], Some(["noon"])))
  {
    var ws := ["monday", "s", "at", "noon"];
    WithComma("monday");
    WithComma("s");
    hide Letters, Bare;
    assert ws[1..] == ["s", "at", "noon"];
    assert NameRun(ws) >= 2;
    assert StopsAt(ws, 1);
    assert ws[..1] == ["monday"] && ws[3..] == ["noon"];
  }

  lemma MondayAlone()
    ensures NamedDays(["monday"]) == Some([1]) && DayList(InOrder(SetOf([1]))) == "1"
  {
    MondayReads();
    InOrderOfSorted([1], 0);
    assert Decimal(1) == "1";
    var parts := seq(1, i requires 0 <= i < 1 => Decimal([1][i]));
    assert Join(parts, ',') == parts[0];
  }

  lemma MondayReads()
    ensures Reads(["monday"], [1])
  {
    NameIsDay(1);
    LowNameShape(1);
    WithComma("monday");
    OneReads("monday", 1);
  }
}
