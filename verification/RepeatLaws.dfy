/** What the repeating phrases come to: which counts are taken, the groups of days at any time, and
    the morning they default to. */
module RepeatLaws {
  import opened Text
  import opened Zone
  import opened Phrases
  import opened PhraseLaws
  import opened NameLaws

  // --- counts -----------------------------------------------------------------------

  /** In any spelling of the unit and any writing of the number, a count of minutes is taken exactly
      when it divides the hour, of hours when it divides the day, of days when it is one. */
  lemma EveryReads(raw: Words, digits: string, unit: string, ctx: Context)
    requires LowerAll(raw) == ["every", digits, unit] && IsNumber(digits)
    ensures var n := NumberOf(digits);
            && (IsMinutes(unit) ==>
                ParseWhen(raw, ctx) == if n >= 1 && 60 % n == 0 then ValidCron(ctx, FieldsOf(EveryMinutes(n)))
                    else Refused)
            && (IsHours(unit) ==>
                ParseWhen(raw, ctx) == if n >= 1 && 24 % n == 0 then ValidCron(ctx, FieldsOf(EveryHours(n)))
                    else Refused)
            && (IsDays(unit) ==>
                ParseWhen(raw, ctx) == if n == 1 then ValidCron(ctx, FieldsOf(DailyAt(9, 0, EveryDay))) else Refused)
  {
    var ws := ["every", digits, unit];
    hide ParseWhen, Decimal, NumberOf, EveryCount, ValidCron, IsNumber, IsMinutes, IsHours, IsDays;
    MorningDigits();
    SaidPlainly(raw, ws);
    CountsTaken(digits, unit, ctx);
    CountIsFirst(raw, ws, ctx);
  }

  lemma CountIsFirst(raw: Words, ws: Words, ctx: Context)
    requires !IsCronLine(raw) && Plain(raw) == ws
    ensures EveryCount(ws, ctx).Some? ==> ParseWhen(raw, ctx) == EveryCount(ws, ctx).value
  {
    hide EveryCount, Hourly, GroupPhrase, NamedPhrase, InPhrase, ClockPhrase, DatePhrase, Plain, IsCronLine;
  }

  lemma MorningDigits()
    ensures Decimal(9) == "9" && Decimal(0) == "0"
  {
  }

  lemma CountsTaken(digits: string, unit: string, ctx: Context)
    requires IsNumber(digits)
    ensures var n, r := NumberOf(digits), EveryCount(["every", digits, unit], ctx);
            && (IsMinutes(unit) ==>
                r == Some(if n >= 1 && 60 % n == 0 then ValidCron(ctx, ["*/" + Decimal(n), "*", "*", "*", "*"])
                    else Refused))
            && (IsHours(unit) ==>
                r == Some(if n >= 1 && 24 % n == 0 then ValidCron(ctx, ["0", "*/" + Decimal(n), "*", "*", "*"])
                    else Refused))
            && (IsDays(unit) ==> r == Some(if n == 1 then ValidCron(ctx, ["0", "9", "*", "*", "*"]) else Refused))
  {
    hide NumberOf, Decimal, ValidCron;
  }

  // --- groups of days ------------------------------------------------------------------

  /** The nine ways to name a group of days, and the cron field of each. */
  predicate IsGroup(group: Words, days: string) {
    if days == "*" then group == ["daily"] || group == ["everyday"] || group == ["every", "day"]
    else if days == "1-5" then group == ["weekdays"] || group == ["every", "weekday"] || group == ["on", "weekdays"]
    else days == "0,6" && (group == ["weekends"] || group == ["every", "weekend"] || group == ["on", "weekends"])
  }

  /** A group of days is read at any time that is one, in letters too, and refused at any other. */
  lemma GroupsRead(raw: Words, group: Words, days: string, time: Words, ctx: Context)
    requires IsGroup(group, days) && time != [] && LowerAll(raw) == group + ["at"] + time
    ensures ParseWhen(raw, ctx) == AtClock(ctx, ParseClock(Concat(time)), days)
  {
    hide ParseWhen, ParseClock, Concat, AtClock, IsGroup;
    GroupIsRead(raw, group + ["at"] + time, group, days, ctx);
    assert (group + ["at"] + time)[|group| + 1..] == time && (group + ["at"] + time)[|group|] == "at";
  }

  /** A group of days without a time is at nine in the morning. */
  lemma GroupsDefaultToMorning(raw: Words, group: Words, days: string, ctx: Context)
    requires IsGroup(group, days) && LowerAll(raw) == group
    ensures ParseWhen(raw, ctx) == AtClock(ctx, Some(Clock(9, 0)), days)
  {
    hide ParseWhen, IsGroup, AtClock, GroupPhrase;
    assert group == group + [];
    GroupIsRead(raw, group, group, days, ctx);
  }

  lemma GroupIsRead(raw: Words, ws: Words, group: Words, days: string, ctx: Context)
    requires IsGroup(group, days) && LowerAll(raw) == ws && |ws| >= |group| && ws[..|group|] == group
    requires |ws| == |group| || (|ws| >= |group| + 2 && ws[|group|] == "at")
    ensures ParseWhen(raw, ctx)
         == AtClock(ctx, if |ws| == |group| then Some(MORNING) else ParseClock(Concat(ws[|group| + 1..])), days)
  {
    assert forall i :: 0 <= i < |group| ==> ws[i] == ws[..|group|][i];
    hide ParseClock, Concat, AtClock, LowerAll, NumberOf;
    GroupSays(raw, ws, group, days);
    assert DayGroup(ws) == Some((|group|, days));
    assert GroupPhrase(ws, ctx).Some?;
    assert EveryCount(ws, ctx) == None && Hourly(ws, ctx) == None by { NotACount(ws, ctx); }
    GroupIsFirst(raw, ws, ctx);
    hide IsGroup, DayGroup, EveryCount, Hourly, ParseWhen;
  }

  lemma GroupSays(raw: Words, ws: Words, group: Words, days: string)
    requires IsGroup(group, days) && LowerAll(raw) == ws && |ws| >= |group| && ws[0] == group[0]
    ensures !IsCronLine(raw) && Plain(raw) == ws
  {
    hide LowerAll, IsCronLine, Plain;
    assert Says(raw, ws);
    SaidPlainly(raw, ws);
  }

  lemma NotACount(ws: Words, ctx: Context)
    requires ws != [] && ws[0] != "hourly"
    requires ws[0] == "every" ==> |ws| >= 2 && (ws[1] == "day" || ws[1] == "weekday" || ws[1] == "weekend")
    ensures EveryCount(ws, ctx) == None && Hourly(ws, ctx) == None
  {
    hide NumberOf;
    assert ws[0] == "every" ==> !IsDigit(ws[1][0]);
    assert "every"[0] == 'e';
  }

  lemma GroupIsFirst(raw: Words, ws: Words, ctx: Context)
    requires !IsCronLine(raw) && Plain(raw) == ws && EveryCount(ws, ctx) == None && Hourly(ws, ctx) == None
    ensures GroupPhrase(ws, ctx).Some? ==> ParseWhen(raw, ctx) == GroupPhrase(ws, ctx).value
  {
    hide EveryCount, Hourly, GroupPhrase, NamedPhrase, InPhrase, ClockPhrase, DatePhrase, Plain, IsCronLine;
  }

  /** So "every weekend at noon" is read where "every monday at noon" is not. */
  lemma WeekendAtNoonIsRead(ctx: Context)
    ensures ParseWhen(["every", "weekend", "at", "noon"], ctx) == ValidCron(ctx, ["0", "12", "*", "*", "0,6"])
  {
    var raw := ["every", "weekend", "at", "noon"];
    assert Concat(["noon"]) == "noon" + Concat([]) == "noon";
    assert Decimal(0) == "0" && Decimal(12) == "12" by { assert Padded(1, 0) == "1"; }
    assert LowerAll(raw) == raw by {
      forall i | 0 <= i < 4 ensures Lower(raw[i]) == raw[i] { LowerLeaves(raw[i]); }
    }
    hide ParseWhen, LowerAll, Decimal, Concat;
    assert raw == ["every", "weekend"] + ["at"] + ["noon"];
    GroupsRead(raw, ["every", "weekend"], "0,6", ["noon"], ctx);
  }
}
