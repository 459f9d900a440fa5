/** Schedules in words: reading a phrase, and saying a schedule back.

    A phrase is its list of words, which is what trimming and collapsing white
    space leaves of the text. Whether croner takes a cron line, and whether it
    keeps to the floor, is one abstract predicate of the line.
 */
module Phrases {
  import opened Text
  import opened Calendar
  import opened Zone

  type Words = seq<string>

  datatype Schedule = Cron(fields: Words) | Once(at: int)
  datatype When = Ok(schedule: Schedule) | Refused
  datatype Context = Context(now: int, off: Offset, accepts: Words -> bool)

  const MAX_SAFE_INTEGER := 9_007_199_254_740_991
  const MORNING := Clock(9, 0)

  // --- small readers ------------------------------------------------------------

  function LowerChar(c: char): char {
    if 'A' <= c <= 'Z' then (c as int + 32) as char else c
  }

  function Lower(s: string): (r: string)
    ensures |r| == |s|
  {
    seq(|s|, i requires 0 <= i < |s| => LowerChar(s[i]))
  }

  function LowerAll(ws: Words): (r: Words)
    ensures |r| == |ws|
  {
    seq(|ws|, i requires 0 <= i < |ws| => Lower(ws[i]))
  }

  function Concat(ws: Words): string {
    if ws == [] then "" else ws[0] + Concat(ws[1..])
  }

  predicate IsNumber(s: string) {
    s != "" && AllDigits(s)
  }

  predicate Letters(s: string) {
    s != "" && forall i :: 0 <= i < |s| ==> 'a' <= s[i] <= 'z'
  }

  function DayIndex(word: string): Option<nat> {
    if |word| < 3 then None
    else
      match word[..3]
      case "sun" => Some(0) case "mon" => Some(1) case "tue" => Some(2) case "wed" => Some(3)
      case "thu" => Some(4) case "fri" => Some(5) case "sat" => Some(6)
      case _ => None
  }

  /** The hour as written, and the half of the day after it. */
  function ClockWith(hour: nat, minute: nat, suffix: string): Option<Clock> {
    if minute > 59 then None
    else if suffix == "am" || suffix == "pm" then
      if hour < 1 || hour > 12 then None
      else Some(Clock(if suffix == "am" then hour % 12 else hour % 12 + 12, minute))
    else if suffix != "" && suffix != "h" then None
    else if hour > 23 then None
    else Some(Clock(hour, minute))
  }

  /** `9`, `9am`, `09:30`, `17h`, `noon`: lower case, without spaces. */
  function ParseClock(text: string): (r: Option<Clock>)
    ensures r.Some? ==> IsClock(r.value)
  {
    if text == "noon" || text == "midday" then Some(Clock(12, 0))
    else if text == "midnight" then Some(Clock(0, 0))
    else if text == "" || !IsDigit(text[0]) then None
    else
      var n := if |text| >= 2 && IsDigit(text[1]) then 2 else 1;
      var hour := NumberOf(text[..n]);
      if |text| >= n + 3 && text[n] == ':' && IsNumber(text[n + 1..n + 3])
      then ClockWith(hour, NumberOf(text[n + 1..n + 3]), text[n + 3..])
      else ClockWith(hour, 0, text[n..])
  }

  function ValidCron(ctx: Context, fields: Words): When {
    if |fields| == 5 && ctx.accepts(fields) then Ok(Cron(fields)) else Refused
  }

  function ValidOnce(at: int): When {
    if 0 < at <= MAX_SAFE_INTEGER then Ok(Once(at)) else Refused
  }

  /** A cron at a clock time, on some days of the week. */
  function AtClock(ctx: Context, clock: Option<Clock>, days: string): When
    requires clock.Some? ==> IsClock(clock.value)
  {
    if clock.None? then Refused
    else ValidCron(ctx, [Decimal(clock.value.minute), Decimal(clock.value.hour), "*", "*", days])
  }

  // --- the repeating phrases ------------------------------------------------------

  /** Five fields of the cron alphabet, not starting with a letter: taken as they are. */
  predicate IsCronLine(raw: Words) {
    && |raw| == 5
    && (forall i, j :: 0 <= i < 5 && 0 <= j < |raw[i]| ==> IsCronChar(raw[i][j]))
    && raw[0] != "" && !IsLetter(raw[0][0])
  }

  predicate IsLetter(c: char) {
    'a' <= c <= 'z' || 'A' <= c <= 'Z'
  }

  predicate IsCronChar(c: char) {
    IsDigit(c) || IsLetter(c) || c in "*/,-?#"
  }

  predicate IsMinutes(unit: string) {
    unit == "minute" || unit == "minutes" || unit == "min" || unit == "mins"
  }

  predicate IsHours(unit: string) {
    unit == "hour" || unit == "hours" || unit == "hr" || unit == "hrs"
  }

  predicate IsDays(unit: string) {
    unit == "day" || unit == "days"
  }

  /** A count of minutes, hours or days. */
  function EveryCount(ws: Words, ctx: Context): Option<When> {
    if |ws| != 3 || ws[0] != "every" || !IsNumber(ws[1]) then None
    else
      var n := NumberOf(ws[1]);
      if IsMinutes(ws[2]) then
        Some(if n < 1 || 60 % n != 0 then Refused else ValidCron(ctx, ["*/" + Decimal(n), "*", "*", "*", "*"]))
      else if IsHours(ws[2]) then
        Some(if n < 1 || 24 % n != 0 then Refused else ValidCron(ctx, ["0", "*/" + Decimal(n), "*", "*", "*"]))
      else if IsDays(ws[2]) then
        Some(if n != 1 then Refused else ValidCron(ctx, ["0", "9", "*", "*", "*"]))
      else None
  }

  /** Every hour, at a minute if one is given. */
  function Hourly(ws: Words, ctx: Context): Option<When> {
    var n := if |ws| >= 1 && ws[0] == "hourly" then 1 else if |ws| >= 2 && ws[0] == "every" && ws[1] == "hour" then 2
        else 0;
    if n == 0 then None
    else if |ws| == n then Some(ValidCron(ctx, ["0", "*", "*", "*", "*"]))
    else if |ws| == n + 2 && ws[n] == "at" then
      var digits := if ws[n + 1] != "" && ws[n + 1][0] == ':' then ws[n + 1][1..] else ws[n + 1];
      if !IsNumber(digits) || |digits| > 2 then None
      else if NumberOf(digits) > 59 then Some(Refused)
      else Some(ValidCron(ctx, [Decimal(NumberOf(digits)), "*", "*", "*", "*"]))
    else None
  }

  /** How many words name a group of days, and the cron field for it. */
  function DayGroup(ws: Words): Option<(nat, string)> {
    if |ws| >= 1 && (ws[0] == "daily" || ws[0] == "everyday") then Some((1, "*"))
    else if |ws| >= 1 && ws[0] == "weekdays" then Some((1, "1-5"))
    else if |ws| >= 1 && ws[0] == "weekends" then Some((1, "0,6"))
    else if |ws| >= 2 && ws[0] == "every" && ws[1] == "day" then Some((2, "*"))
    else if |ws| >= 2 && ((ws[0] == "every" && ws[1] == "weekday") || (ws[0] == "on" && ws[1] == "weekdays")) then
        Some((2, "1-5"))
    else if |ws| >= 2 && ((ws[0] == "every" && ws[1] == "weekend") || (ws[0] == "on" && ws[1] == "weekends")) then
        Some((2, "0,6"))
    else None
  }

  /** A group of days, then nothing or `at` and a clock time over any number of words. */
  function GroupPhrase(ws: Words, ctx: Context): Option<When> {
    match DayGroup(ws)
    case None => None
    case Some((n, days)) =>
      if |ws| == n then Some(AtClock(ctx, Some(MORNING), days))
      else if |ws| >= n + 2 && ws[n] == "at" then Some(AtClock(ctx, ParseClock(Concat(ws[n + 1..])), days))
      else None
  }

  // --- days by name ---------------------------------------------------------------

  predicate EndsInComma(w: string) {
    w != "" && w[|w| - 1] == ','
  }

  function Bare(w: string): string {
    if EndsInComma(w) then w[..|w| - 1] else w
  }

  /** How many words from the front could be day names, with or without a comma. */
  function NameRun(ws: Words): (n: nat)
    ensures n <= |ws|
  {
    if ws == [] || !Letters(Bare(ws[0])) then 0 else 1 + NameRun(ws[1..])
  }

  /** A lone `s` reads as a plural ending wherever the phrase could stop. */
  predicate StopsAt(ws: Words, i: nat) {
    i < |ws| && ws[i] == "s" && (i + 1 == |ws| || (ws[i + 1] == "at" && i + 2 < |ws|))
  }

  function FirstStop(ws: Words, i: nat, run: nat): (r: Option<nat>)
    requires run <= |ws|
    ensures r.Some? ==> i <= r.value < run && StopsAt(ws, r.value)
    ensures r.None? ==> forall j :: i <= j < run ==> !StopsAt(ws, j)
    decreases run - i
  {
    if i >= run then None else if StopsAt(ws, i) then Some(i) else FirstStop(ws, i + 1, run)
  }

  /** The last `at` that could end the names and begin a time. */
  function LastAt(ws: Words, i: nat): (r: Option<nat>)
    requires i < |ws|
    ensures r.Some? ==> 0 < r.value <= i
  {
    if i == 0 then None else if ws[i] == "at" && !EndsInComma(ws[i - 1]) then Some(i) else LastAt(ws, i - 1)
  }

  datatype NamesAt = NamesAt(names: Words, at: Option<Words>)

  /** Where the day names end and the time begins: the longest run of names if the
      phrase ends with it, else the last `at` among them. */
  function SplitNames(ws: Words): Option<NamesAt> {
    var run := NameRun(ws);
    if run == 0 then None
    else
      var stop := FirstStop(ws, 1, run);
      if stop.Some? then
        Some(NamesAt(ws[..stop.value], if stop.value + 1 == |ws| then None else Some(ws[stop.value + 2..])))
      else if run == |ws| && !EndsInComma(ws[|ws| - 1]) then Some(NamesAt(ws, None))
      else if |ws| < 3 then None
      else
        var at := LastAt(ws, if run <= |ws| - 2 then run else |ws| - 2);
        if at.None? then None else Some(NamesAt(ws[..at.value], Some(ws[at.value + 1..])))
  }

  /** The days the words name, `and` aside; nothing if one of them is not a day. */
  function NamedDays(names: Words): Option<seq<nat>> {
    if names == [] then Some([])
    else
      var rest := NamedDays(names[1..]);
      if rest.None? then None
      else if Bare(names[0]) == "and" then rest
      else
        match DayIndex(Bare(names[0]))
        case None => None
        case Some(day) => Some([day] + rest.value)
  }

  function SetOf(days: seq<nat>): set<nat> {
    set d | d in days
  }

  /** Each day of the week that is in the set, Sunday first. */
  function InOrder(days: set<nat>): seq<nat> {
    InOrderFrom(days, 0)
  }

  function InOrderFrom(days: set<nat>, from: nat): seq<nat>
    requires from <= 7
    decreases 7 - from
  {
    if from == 7 then [] else (if from in days then [from] else []) + InOrderFrom(days, from + 1)
  }

  function DayList(days: seq<nat>): string {
    Join(seq(|days|, i requires 0 <= i < |days| => Decimal(days[i])), ',')
  }

  function WordsBefore(ws: Words): nat {
    if |ws| >= 1 && (ws[0] == "every" || ws[0] == "on") then 1
    else if |ws| >= 2 && ws[0] == "weekly" && ws[1] == "on" then 2
    else 0
  }

  /** Days by name, then perhaps a time: a cron after `every` or `weekly on`, one moment after `on`. */
  function NamedPhrase(ws: Words, ctx: Context): Option<When> {
    var n := WordsBefore(ws);
    if n == 0 then None
    else
      match SplitNames(ws[n..])
      case None => None
      case Some(NamesAt(names, at)) =>
        var days := NamedDays(names);
        if days.None? || days.value == [] then None
        else
          var clock := if at.None? then Some(MORNING) else ParseClock(Concat(at.value));
          if clock.None? then Some(Refused)
          else if ws[0] == "on" && !StartsWith(ws[1], "weekday") then
            Some(ValidOnce(NextWeekday(ctx.now, days.value[0], clock.value, ctx.off)))
          else
            Some(AtClock(ctx, clock, DayList(InOrder(SetOf(days.value)))))
  }

  // --- the phrases for one moment ---------------------------------------------------

  function UnitMs(unit: string): Option<nat> {
    if IsMinutes(unit) then Some(60_000)
    else if IsHours(unit) then Some(3_600_000)
    else if IsDays(unit) then Some(86_400_000)
    else if unit == "week" || unit == "weeks" then Some(7 * 86_400_000)
    else None
  }

  /** A count of a unit from now; `a` and `an` count one. */
  function InPhrase(ws: Words, ctx: Context): Option<When> {
    if |ws| != 3 || ws[0] != "in" || !(IsNumber(ws[1]) || ws[1] == "a" || ws[1] == "an") || UnitMs(ws[2]).None? then
        None
    else
      var n := if IsNumber(ws[1]) then NumberOf(ws[1]) else 1;
      Some(if n < 1 then Refused else ValidOnce(ctx.now + n * UnitMs(ws[2]).value))
  }

  datatype Which = Today | Tomorrow | Tonight

  /** The day word a phrase opens with, and the words after it; the word may run into the next. */
  function DayWord(ws: Words): Option<(Which, Words)>
    requires ws != []
  {
    var hit := if StartsWith(ws[0], "today") then Some((Today, 5))
               else if StartsWith(ws[0], "tomorrow") then Some((Tomorrow, 8))
               else if StartsWith(ws[0], "tonight") then Some((Tonight, 7))
               else None;
    if hit.None? then None
    else
      var (which, n) := hit.value;
      var rest := if |ws[0]| == n then ws[1..] else [ws[0][n..]] + ws[1..];
      if rest == [] then None else Some((which, rest))
  }

  function TodayAt(ctx: Context, daysOn: int, clock: Clock): int {
    var today := WallClock(ctx.now, ctx.off);
    CivilSuccessor((ctx.now + ctx.off(ctx.now)) / DAY);
    ClockOnDay(today.date, daysOn, clock, ctx.off)
  }

  /** A clock time with or without a day word: without one today's, or tomorrow's once that has passed. */
  function ClockPhrase(ws: Words, ctx: Context): Option<When> {
    if ws == [] then None
    else
      var day := DayWord(ws);
      var after := if day.Some? then day.value.1 else ws;
      var said := if |after| >= 2 && after[0] == "at" then after[1..] else after;
      var when := if day.Some? then Some(day.value.0) else None;
      var clock := if said == ["tonight"] || when == Some(Tonight) then Some(Clock(20, 0))
          else ParseClock(Concat(said));
      if clock.None? || !(when.Some? || said == ["tonight"] || (ws[0] == "at" && |ws| >= 2)
          || ParseClock(Concat(ws)).Some?) then None
      else
        var first := TodayAt(ctx, if when == Some(Tomorrow) then 1 else 0, clock.value);
        var at := if first <= ctx.now && when != Some(Today) && when != Some(Tomorrow) then
            TodayAt(ctx, 1, clock.value) else first;
        Some(if at <= ctx.now then Refused else ValidOnce(at))
  }

  predicate IsDate(w: string) {
    && |w| >= 10 && w[4] == '-' && w[7] == '-'
    && AllDigits(w[..4]) && AllDigits(w[5..7]) && AllDigits(w[8..10])
  }

  /** What follows a date in the text: after ` at `, a space or a `t`. */
  function AfterDate(ws: Words): string
    requires ws != [] && |ws[0]| >= 10
  {
    var tail := ws[0][10..];
    if tail == "" then Join(if |ws| >= 3 && ws[1] == "at" then ws[2..] else ws[1..], ' ')
    else Join([if tail[0] == 't' then tail[1..] else tail] + ws[1..], ' ')
  }

  function WithoutZ(text: string): string {
    if text != "" && text[|text| - 1] == 'z' then text[..|text| - 1] else text
  }

  /** `09:00:30` and `09:00:30.5` read as `09:00`. */
  function WithoutSeconds(text: string): string {
    var n := if |text| >= 2 && IsDigit(text[0]) && IsDigit(text[1]) then 2 else 1;
    if |text| >= n + 6 && IsNumber(text[..n]) && text[n] == ':' && IsNumber(text[n + 1..n + 3])
       && text[n + 3] == ':' && IsNumber(text[n + 4..n + 6])
       && (|text| == n + 6 || (text[n + 6] == '.' && IsNumber(text[n + 7..])))
    then text[..n + 3] else text
  }

  function WithoutSpaces(text: string): string {
    if text == "" then "" else (if text[0] == ' ' then "" else [text[0]]) + WithoutSpaces(text[1..])
  }

  /** A calendar date and perhaps a time: in the zone, or in UTC when the text ends in `z`. */
  function DatePhrase(ws: Words, ctx: Context): Option<When> {
    var rest := if |ws| >= 2 && ws[0] == "on" then ws[1..] else ws;
    if rest == [] || !IsDate(rest[0]) then None
    else
      var date := Date(NumberOf(rest[0][..4]), NumberOf(rest[0][5..7]), NumberOf(rest[0][8..10]));
      var after := AfterDate(rest);
      var clock := if WithoutSpaces(after) == "" then Some(MORNING)
                   else ParseClock(WithoutSpaces(WithoutSeconds(WithoutZ(after))));
      if clock.None? then None
      else
        var asUtc := DateUtc(date, clock.value);
        var at := if WithoutZ(after) != after then asUtc else TwoPass(ctx.off, asUtc);
        Some(if at <= ctx.now then Refused else ValidOnce(at))
  }

  // --- the whole reader ---------------------------------------------------------------

  function OrElse(r: Option<When>, other: When): When {
    if r.Some? then r.value else other
  }

  /** The phrase in lower case, a leading `please` dropped. */
  function Plain(raw: Words): Words {
    var lower := LowerAll(raw);
    if |lower| >= 2 && lower[0] == "please" then lower[1..] else lower
  }

  function ParsePlain(ws: Words, ctx: Context): When {
    OrElse(EveryCount(ws, ctx), OrElse(Hourly(ws, ctx), OrElse(GroupPhrase(ws, ctx), OrElse(NamedPhrase(ws, ctx),
      OrElse(InPhrase(ws, ctx), OrElse(ClockPhrase(ws, ctx), OrElse(DatePhrase(ws, ctx), Refused)))))))
  }

  function ParseWhen(raw: Words, ctx: Context): When {
    if IsCronLine(raw) then ValidCron(ctx, raw) else ParsePlain(Plain(raw), ctx)
  }
}
