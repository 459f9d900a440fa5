/** `YYYYMMDD-HHMMSS` in UTC: what every backup's name starts with. */
module Stamp {
  import opened Text
  import opened Calendar

  const STAMP_LEN := 15
  const SECONDS_PER_DAY := 86_400
  /** The first second of the year 10000, where the year takes a fifth digit. */
  const YEAR_10000 := 253_402_300_800

  function DayStamp(days: nat): string {
    SinceEpoch(days);
    var d := CivilFromDays(days);
    Padded(d.year, 4) + Padded(d.month, 2) + Padded(d.day, 2)
  }

  function ClockStamp(rem: nat): string {
    Padded(rem / 3600, 2) + Padded(rem % 3600 / 60, 2) + Padded(rem % 60, 2)
  }

  function NowStamp(secs: nat): string {
    DayStamp(secs / SECONDS_PER_DAY) + "-" + ClockStamp(secs % SECONDS_PER_DAY)
  }

  lemma Widths()
    ensures Pow10(2) == 100 && Pow10(4) == 10_000
  {
    assert Pow10(3) == 10 * Pow10(2);
  }

  lemma ClockStampOrders(a: nat, b: nat)
    requires a < b < SECONDS_PER_DAY
    ensures |ClockStamp(a)| == |ClockStamp(b)| == 6 && Before(ClockStamp(a), ClockStamp(b))
  {
    hide Padded, Before;
    Widths();
    var ha, ma, sa := a / 3600, a % 3600 / 60, a % 60;
    var hb, mb, sb := b / 3600, b % 3600 / 60, b % 60;
    PaddedWidth(ha, 2); PaddedWidth(ma, 2); PaddedWidth(sa, 2);
    PaddedWidth(hb, 2); PaddedWidth(mb, 2); PaddedWidth(sb, 2);
    ByPart(ha, hb, ma, mb, 2, Padded(sa, 2), Padded(sb, 2));
    assert a == 3600 * ha + 60 * ma + sa && b == 3600 * hb + 60 * mb + sb;
    if sa < sb { PaddedOrders(sa, sb, 2); }
  }

  /** Three padded fields compare by the first, then the second, then the rest. */
  lemma ByPart(a: nat, b: nat, c: nat, d: nat, w: nat, x: string, y: string)
    requires w >= 1 && a < Pow10(w) && b < Pow10(w) && c < Pow10(2) && d < Pow10(2)
    ensures var s, t := Padded(a, w) + Padded(c, 2) + x, Padded(b, w) + Padded(d, 2) + y;
            (a < b ==> Before(s, t)) && (a == b && c < d ==> Before(s, t))
                && (a == b && c == d && Before(x, y) ==> Before(s, t))
  {
    hide Padded, Before;
    PaddedWidth(a, w); PaddedWidth(b, w); PaddedWidth(c, 2); PaddedWidth(d, 2);
    assert Padded(a, w) + Padded(c, 2) + x == Padded(a, w) + (Padded(c, 2) + x);
    assert Padded(b, w) + Padded(d, 2) + y == Padded(b, w) + (Padded(d, 2) + y);
    BeforeByParts(Padded(a, w), Padded(b, w), Padded(c, 2) + x, Padded(d, 2) + y);
    BeforeByParts(Padded(c, 2), Padded(d, 2), x, y);
    if a < b { PaddedOrders(a, b, w); }
    if c < d { PaddedOrders(c, d, 2); }
  }

  lemma DayStampOrders(a: nat, b: nat)
    requires a < b && CivilFromDays(b).year < 10_000
    ensures |DayStamp(a)| == |DayStamp(b)| == 8 && Before(DayStamp(a), DayStamp(b))
  {
    hide Padded, Before, CivilFromDays;
    Widths();
    SinceEpoch(a);
    SinceEpoch(b);
    CivilOrders(a, b);
    var x, y := CivilFromDays(a), CivilFromDays(b);
    PaddedWidth(x.year, 4); PaddedWidth(x.month, 2); PaddedWidth(x.day, 2);
    PaddedWidth(y.year, 4); PaddedWidth(y.month, 2); PaddedWidth(y.day, 2);
    ByPart(x.year, y.year, x.month, y.month, 4, Padded(x.day, 2), Padded(y.day, 2));
    if x.day < y.day { PaddedOrders(x.day, y.day, 2); }
  }

  lemma YearBeyond(days: nat)
    ensures CivilFromDays(days).year < 10_000 <==> days < YEAR_10000 / SECONDS_PER_DAY
  {
    var first := Date(10_000, 1, 1);
    assert DayNumber(first) == YEAR_10000 / SECONDS_PER_DAY;
    DateRoundTrip(first);
    CivilOrders(days, DayNumber(first));
    SinceEpoch(days);
  }

  /** The stamp has its fixed width up to the end of the year 9999, and from then on it does not. */
  lemma StampWidth(secs: nat)
    ensures |NowStamp(secs)| == STAMP_LEN <==> secs < YEAR_10000
  {
    var days, rem := secs / SECONDS_PER_DAY, secs % SECONDS_PER_DAY;
    Widths();
    YearBeyond(days);
    SinceEpoch(days);
    var d := CivilFromDays(days);
    PaddedWidth(d.year, 4); PaddedWidth(d.month, 2); PaddedWidth(d.day, 2);
    PaddedWidth(rem / 3600, 2); PaddedWidth(rem % 3600 / 60, 2); PaddedWidth(rem % 60, 2);
  }

  /** The six fields of a stamp, the year as wide as it needs to be, are those of the second: read as
      numbers they are a date and a time of day, and counted up they come to it. */
  lemma StampReadsBack(secs: nat)
    ensures var s, n := NowStamp(secs), |NowStamp(secs)| - 11;
            && n >= 4 && s[n + 4] == '-' && AllDigits(s[..n]) && AllDigits(s[n..n + 2]) && AllDigits(s[n + 2..n + 4])
            && AllDigits(s[n + 5..n + 7]) && AllDigits(s[n + 7..n + 9]) && AllDigits(s[n + 9..])
            && var date := Date(NumberOf(s[..n]), NumberOf(s[n..n + 2]), NumberOf(s[n + 2..n + 4]));
               var h, m, sec := NumberOf(s[n + 5..n + 7]), NumberOf(s[n + 7..n + 9]), NumberOf(s[n + 9..]);
            && Valid(date) && h < 24 && m < 60 && sec < 60
            && DayNumber(date) * SECONDS_PER_DAY + h * 3600 + m * 60 + sec == secs
  {
    hide Padded, NumberOf, CivilFromDays, DayNumber, Valid, DayStamp, ClockStamp;
    var days, rem := secs / SECONDS_PER_DAY, secs % SECONDS_PER_DAY;
    var d := CivilFromDays(days);
    DayFields(days);
    ClockFields(rem);
    Fields(Padded(d.year, 4), Padded(d.month, 2), Padded(d.day, 2), Padded(rem / 3600, 2),
        Padded(rem % 3600 / 60, 2), Padded(rem % 60, 2));
  }

  lemma DayFields(days: nat)
    ensures var d := CivilFromDays(days);
            && Valid(d) && d.year >= 0 && d.month >= 0 && d.day >= 0 && DayNumber(d) == days
            && DayStamp(days) == Padded(d.year, 4) + Padded(d.month, 2) + Padded(d.day, 2)
            && |Padded(d.month, 2)| == |Padded(d.day, 2)| == 2
            && NumberOf(Padded(d.year, 4)) == d.year && NumberOf(Padded(d.month, 2)) == d.month
            && NumberOf(Padded(d.day, 2)) == d.day
  {
    hide Padded, NumberOf, CivilFromDays, DayNumber;
    SinceEpoch(days);
    DaysRoundTrip(days);
    Widths();
    var d := CivilFromDays(days);
    PaddedWidth(d.month, 2); PaddedWidth(d.day, 2);
    PaddedReadsBack(d.year, 4); PaddedReadsBack(d.month, 2); PaddedReadsBack(d.day, 2);
  }

  lemma ClockFields(rem: nat)
    requires rem < SECONDS_PER_DAY
    ensures var h, m, sec := rem / 3600, rem % 3600 / 60, rem % 60;
            && rem == 3600 * h + 60 * m + sec && h < 24 && m < 60
            && ClockStamp(rem) == Padded(h, 2) + Padded(m, 2) + Padded(sec, 2)
            && |Padded(h, 2)| == |Padded(m, 2)| == |Padded(sec, 2)| == 2
            && NumberOf(Padded(h, 2)) == h && NumberOf(Padded(m, 2)) == m && NumberOf(Padded(sec, 2)) == sec
  {
    hide Padded, NumberOf;
    Widths();
    var h, m, sec := rem / 3600, rem % 3600 / 60, rem % 60;
    PaddedWidth(h, 2); PaddedWidth(m, 2); PaddedWidth(sec, 2);
    PaddedReadsBack(h, 2); PaddedReadsBack(m, 2); PaddedReadsBack(sec, 2);
  }

  lemma Fields(y: string, mo: string, d: string, h: string, m: string, sec: string)
    requires |mo| == |d| == |h| == |m| == |sec| == 2
    ensures var s, n := y + mo + d + "-" + (h + m + sec), |y|;
            && |s| == n + 11 && s[..n] == y && s[n..n + 2] == mo && s[n + 2..n + 4] == d && s[n + 4] == '-'
            && s[n + 5..n + 7] == h && s[n + 7..n + 9] == m && s[n + 9..] == sec
  {
  }

  /** Lexical order of stamps is chronological order: what pruning rests on. */
  lemma StampOrders(a: nat, b: nat)
    requires a < YEAR_10000 && b < YEAR_10000
    ensures Before(NowStamp(a), NowStamp(b)) <==> a < b
  {
    if a < b { StampGrows(a, b); }
    if b < a {
      StampGrows(b, a);
      if Before(NowStamp(a), NowStamp(b)) { BeforeTransitive(NowStamp(a), NowStamp(b), NowStamp(a)); }
      BeforeIrreflexive(NowStamp(a));
    }
    BeforeIrreflexive(NowStamp(a));
  }

  lemma DashedOrders(d: string, e: string, x: string, y: string)
    requires |d| == |e|
    ensures Before(d, e) || (d == e && Before(x, y)) ==> Before(d + "-" + x, e + "-" + y)
  {
    assert d + "-" + x == d + ("-" + x) && e + "-" + y == e + ("-" + y);
    BeforeByParts(d, e, "-" + x, "-" + y);
    BeforeByParts("-", "-", x, y);
  }

  lemma StampGrows(a: nat, b: nat)
    requires a < b < YEAR_10000
    ensures Before(NowStamp(a), NowStamp(b))
  {
    var da, db := a / SECONDS_PER_DAY, b / SECONDS_PER_DAY;
    var ra, rb := a % SECONDS_PER_DAY, b % SECONDS_PER_DAY;
    assert |DayStamp(da)| == |DayStamp(db)| && (da < db ==> Before(DayStamp(da), DayStamp(db))) by {
      if da < db {
        YearBeyond(db);
        DayStampOrders(da, db);
      }
    }
    if da == db { ClockStampOrders(ra, rb); }
    DashedOrders(DayStamp(da), DayStamp(db), ClockStamp(ra), ClockStamp(rb));
  }

  lemma FirstDigit(n: nat, width: nat)
    requires n == 10_000 || n == 9_999
    requires width == 4
    ensures Padded(n, width)[0] == (if n == 10_000 then '1' else '9')
  {
    assert Padded(1, 0) == "1";
    assert Padded(9, 1) == "9";
    assert Padded(10, 1)[0] == '1';
    assert Padded(100, 2)[0] == '1';
    assert Padded(1000, 3)[0] == '1';
    assert Padded(99, 2)[0] == '9';
    assert Padded(999, 3)[0] == '9';
  }

  lemma FirstDecides(a: string, b: string)
    requires a != "" && b != "" && a[0] < b[0]
    ensures Before(a, b)
  {
  }

  /** One second past the last four-digit year the order breaks: the later name sorts first. */
  lemma StampOrderEnds()
    ensures Before(NowStamp(YEAR_10000), NowStamp(YEAR_10000 - 1))
  {
    hide NowStamp, Padded;
    var late, early := NowStamp(YEAR_10000), NowStamp(YEAR_10000 - 1);
    assert late != "" && late[0] == '1' by {
      FirstDigit(10_000, 4);
      StartsWithYear(YEAR_10000, Date(10_000, 1, 1));
    }
    assert early != "" && early[0] == '9' by {
      FirstDigit(9_999, 4);
      StartsWithYear(YEAR_10000 - 1, Date(9_999, 12, 31));
    }
    FirstDecides(late, early);
  }

  lemma StartsWithYear(secs: nat, d: Date)
    requires Valid(d) && d.year >= 0 && DayNumber(d) == secs / SECONDS_PER_DAY
    ensures |NowStamp(secs)| > 0 && NowStamp(secs)[0] == Padded(d.year, 4)[0]
  {
    DateRoundTrip(d);
    SinceEpoch(secs / SECONDS_PER_DAY);
  }
}
