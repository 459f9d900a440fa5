/** A schedule said back: in the words the card uses, and as the phrase an edit
    box is filled with. */
module Saying {
  import opened Text
  import opened Calendar
  import opened Zone
  import opened Phrases

  function Two(n: nat): string {
    Padded(n, 2)
  }

  // --- the days a cron field names ----------------------------------------------

  function RangeDays(from: nat, to: nat): set<nat>
    decreases if from <= to then to - from + 1 else 0
  {
    if from > to then {} else {from % 7} + RangeDays(from + 1, to)
  }

  /** A digit up to 7, or two digits with a dash: 7 is Sunday as 0 is. */
  function PartDays(part: string): Option<set<nat>> {
    if |part| == 3 && IsDigit(part[0]) && part[1] == '-' && IsDigit(part[2]) then
      Some(RangeDays(DigitValue(part[0]), DigitValue(part[2])))
    else if |part| == 1 && IsDigit(part[0]) && DigitValue(part[0]) <= 7 then Some({DigitValue(part[0]) % 7})
    else None
  }

  function AllDays(parts: seq<string>): Option<set<nat>> {
    if parts == [] then Some({})
    else
      var before, last := AllDays(parts[..|parts| - 1]), PartDays(parts[|parts| - 1]);
      if before.None? || last.None? then None else Some(before.value + last.value)
  }

  function DaysNamed(field: string): Option<seq<nat>> {
    match AllDays(Split(field, ','))
    case None => None
    case Some(days) => if days == {} then None else Some(InOrder(days))
  }

  method DayIndexes(field: string) returns (r: Option<seq<nat>>)
    ensures r == DaysNamed(field)
  {
    var days: set<nat> := {};
    var parts := Split(field, ',');
    for i := 0 to |parts|
      invariant AllDays(parts[..i]) == Some(days)
    {
      assert parts[..i + 1][..i] == parts[..i] && parts[..i + 1][i] == parts[i];
      var part := parts[i];
      if |part| == 3 && IsDigit(part[0]) && part[1] == '-' && IsDigit(part[2]) {
        var day, to := DigitValue(part[0]), DigitValue(part[2]);
        ghost var before := days;
        while day <= to
          invariant days + RangeDays(day, to) == before + RangeDays(DigitValue(part[0]), to)
          decreases if day <= to then to - day + 1 else 0
        {
          days := days + {day % 7};
          day := day + 1;
        }
        assert days == before + RangeDays(DigitValue(part[0]), to);
      } else if |part| == 1 && IsDigit(part[0]) && DigitValue(part[0]) <= 7 {
        days := days + {DigitValue(part[0]) % 7};
      } else {
        NoDays(parts, i);
        return None;
      }
    }
    assert parts[..|parts|] == parts;
    r := if days == {} then None else Some(InOrder(days));
  }

  lemma {:induction false} NoDays(parts: seq<string>, i: nat)
    requires i < |parts| && PartDays(parts[i]).None?
    ensures AllDays(parts).None?
  {
    if i < |parts| - 1 { NoDays(parts[..|parts| - 1], i); }
  }

  /** A part of a day field that names the day: the digit, or one between the two, seven being Sunday too. */
  ghost predicate PartNames(part: string, day: nat) {
    if |part| == 1 then IsDigit(part[0]) && part[0] <= '7' && DigitValue(part[0]) % 7 == day
    else
      |part| == 3 && IsDigit(part[0]) && part[1] == '-' && IsDigit(part[2])
      && exists n :: DigitValue(part[0]) <= n <= DigitValue(part[2]) && n % 7 == day
  }

  lemma {:induction false} RangeMeans(from: nat, to: nat, day: nat)
    ensures day in RangeDays(from, to) <==> exists n :: from <= n <= to && n % 7 == day
    decreases if from <= to then to - from + 1 else 0
  {
    if from <= to {
      RangeMeans(from + 1, to, day);
      if from % 7 == day { assert from <= from <= to && from % 7 == day; }
    }
  }

  /** What a field names: the days its parts name, and those only. */
  lemma FieldNames(field: string, day: nat)
    requires DaysNamed(field).Some?
    ensures day in DaysNamed(field).value <==> exists part :: part in Split(field, ',') && PartNames(part, day)
  {
    var parts := Split(field, ',');
    PartsMean(parts, day);
    InOrderIsSorted(AllDays(parts).value, 0);
    hide AllDays, PartNames;
  }

  lemma {:induction false} PartsMean(parts: seq<string>, day: nat)
    requires AllDays(parts).Some?
    ensures day in AllDays(parts).value <==> exists part :: part in parts && PartNames(part, day)
    ensures day in AllDays(parts).value ==> day < 7
  {
    if parts == [] {
    } else {
      var init, last := parts[..|parts| - 1], parts[|parts| - 1];
      assert parts == init + [last];
      PartsMean(init, day);
      PartMeans(last, day);
      hide PartNames;
    }
  }

  lemma PartMeans(part: string, day: nat)
    requires PartDays(part).Some?
    ensures day in PartDays(part).value <==> PartNames(part, day)
    ensures PartNames(part, day) ==> day < 7
  {
    if |part| == 3 { RangeMeans(DigitValue(part[0]), DigitValue(part[2]), day); }
  }

  // --- words ------------------------------------------------------------------------

  function DayName(day: nat): string
    requires day < 7
  {
    ["Sunday", "Monday", "Tuesday", "Wednesday", "Thursday", "Friday", "Saturday"][day]
  }

  predicate AreDays(days: seq<nat>) {
    forall i :: 0 <= i < |days| ==> days[i] < 7
  }

  /** Monday, Tuesday and Friday */
  function DayWords(days: seq<nat>): Words
    requires AreDays(days)
  {
    if days == [] then []
    else if |days| == 1 then [DayName(days[0])]
    else if |days| == 2 then [DayName(days[0]), "and", DayName(days[1])]
    else [DayName(days[0]) + ","] + DayWords(days[1..])
  }

  function ClockText(hour: nat, minute: nat): string {
    Two(hour) + ":" + Two(minute)
  }

  predicate ShortNumber(field: string) {
    IsNumber(field) && |field| <= 2
  }

  predicate Step(field: string) {
    StartsWith(field, "*/") && IsNumber(field[2..])
  }

  /** The words for a clock time on the days a field names, if it names any. */
  function DowWords(dow: string, clock: Words): Option<Words> {
    if dow == "*" then Some(["daily"] + clock)
    else
      match DaysNamed(dow)
      case None => None
      case Some(days) =>
        InOrderAreDays(dow);
        if |days| == 7 then Some(["daily"] + clock)
        else if days == [1, 2, 3, 4, 5] then Some(["weekdays"] + clock)
        else if days == [0, 6] then Some(["weekends"] + clock)
        else Some(["every"] + DayWords(days) + clock)
  }

  /** The words a cron is covered by, if any. */
  function CronWords(fields: Words): Option<Words>
    requires |fields| == 5
  {
    var (minute, hour, dow) := (fields[0], fields[1], fields[4]);
    if fields[2] != "*" || fields[3] != "*" then None
    else if Step(minute) && hour == "*" && dow == "*" then Some(["every", minute[2..], "minutes"])
    else if minute == "0" && hour == "*" && dow == "*" then Some(["every", "hour"])
    else if ShortNumber(minute) && hour == "*" && dow == "*" then
        Some(["every", "hour", "at", ":" + Two(NumberOf(minute))])
    else if Step(hour) && minute == "0" && dow == "*" then Some(["every", hour[2..], "hours"])
    else if !ShortNumber(minute) || !ShortNumber(hour) then None
    else DowWords(dow, ["at", ClockText(NumberOf(hour), NumberOf(minute))])
  }

  lemma InOrderAreDays(field: string)
    ensures DaysNamed(field).Some? ==> AreDays(DaysNamed(field).value)
  {
    match AllDays(Split(field, ','))
    case None =>
    case Some(days) => InOrderIsSorted(days, 0);
  }

  lemma {:induction false} InOrderIsSorted(days: set<nat>, from: nat)
    requires from <= 7
    ensures var r := InOrderFrom(days, from);
            && (forall i :: 0 <= i < |r| ==> from <= r[i] < 7 && r[i] in days)
            && (forall i, j :: 0 <= i < j < |r| ==> r[i] < r[j])
            && (forall d :: from <= d < 7 && d in days ==> d in r)
    decreases 7 - from
  {
    if from < 7 { InOrderIsSorted(days, from + 1); }
  }

  function Describe(fields: Words): Words
    requires |fields| == 5
  {
    match CronWords(fields)
    case Some(words) => words
    case None => fields
  }

  /** The date and time a zone shows at a moment, as the phrase for a once schedule. */
  function OnceWords(at: int, off: Offset): Words
  {
    var wall := WallClock(at, off);
    SeenAsUtc(at, off);
    CivilSuccessor((at + off(at)) / DAY);
    var year := if wall.date.year >= 0 then Decimal(wall.date.year) else "-" + Decimal(-wall.date.year);
    ["on", year + "-" + Two(wall.date.month) + "-" + Two(wall.date.day), "at",
        ClockText(wall.clock.hour, wall.clock.minute)]
  }

  /** The phrase `ParseWhen` reads back; a cron its words would not read back to is given as itself. */
  function Phrase(s: Schedule, ctx: Context): Words
    requires s.Cron? ==> |s.fields| == 5
  {
    match s
    case Once(at) => OnceWords(at, ctx.off)
    case Cron(fields) =>
      var words := Describe(fields);
      if ParseWhen(words, ctx.(now := 0)) == Ok(s) then words else fields
  }
}
