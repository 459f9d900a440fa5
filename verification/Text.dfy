/** Strings as the sources use them: decimal numbers, lexical order, joining
    and splitting, and the first place one text occurs in another. */
module Text {

  datatype Option<+T> = None | Some(value: T)

  // --- numbers --------------------------------------------------------------

  predicate IsDigit(c: char) {
    '0' <= c <= '9'
  }

  function DigitValue(c: char): nat
    requires IsDigit(c)
  {
    c as int - '0' as int
  }

  function DigitOf(n: nat): (c: char)
    requires n < 10
    ensures IsDigit(c) && DigitValue(c) == n
  {
    ('0' as int + n) as char
  }

  predicate AllDigits(s: string) {
    forall i :: 0 <= i < |s| ==> IsDigit(s[i])
  }

  /** Decimal digits of `n`, left-padded with zeros to at least `width`. */
  function Padded(n: nat, width: nat): (s: string)
    ensures AllDigits(s) && |s| >= 1 && |s| >= width
    decreases n + width
  {
    if n < 10 && width <= 1 then [DigitOf(n)]
    else Padded(n / 10, if width == 0 then 0 else width - 1) + [DigitOf(n % 10)]
  }

  function Decimal(n: nat): string {
    Padded(n, 1)
  }

  function NumberOf(s: string): nat
    requires AllDigits(s)
  {
    if s == "" then 0 else 10 * NumberOf(s[..|s| - 1]) + DigitValue(s[|s| - 1])
  }

  lemma {:induction false} PaddedReadsBack(n: nat, width: nat)
    ensures NumberOf(Padded(n, width)) == n
    decreases n + width
  {
    var s := Padded(n, width);
    if n < 10 && width <= 1 {
      assert s[..0] == "";
    } else {
      var rest := Padded(n / 10, if width == 0 then 0 else width - 1);
      PaddedReadsBack(n / 10, if width == 0 then 0 else width - 1);
      assert s[..|s| - 1] == rest;
    }
  }

  function Pow10(w: nat): nat {
    if w == 0 then 1 else 10 * Pow10(w - 1)
  }

  /** A padded number is exactly as wide as asked when, and only when, it fits. */
  lemma {:induction false} PaddedWidth(n: nat, width: nat)
    requires width >= 1
    ensures |Padded(n, width)| == width <==> n < Pow10(width)
  {
    if width == 1 {
      assert Pow10(1) == 10 * Pow10(0);
    } else {
      PaddedWidth(n / 10, width - 1);
    }
  }

  // --- lexical order --------------------------------------------------------

  /** Strictly before in the order of code units, the order `sort` and `<` use. */
  predicate Before(a: string, b: string) {
    b != "" && (a == "" || a[0] < b[0] || (a[0] == b[0] && Before(a[1..], b[1..])))
  }

  lemma {:induction false} BeforeIrreflexive(a: string)
    ensures !Before(a, a)
  {
    if a == "" {
    } else {
      BeforeIrreflexive(a[1..]);
    }
  }

  lemma {:induction false} BeforeTransitive(a: string, b: string, c: string)
    requires Before(a, b) && Before(b, c)
    ensures Before(a, c)
  {
    if a != "" && a[0] == b[0] == c[0] { BeforeTransitive(a[1..], b[1..], c[1..]); }
  }

  lemma {:induction false} BeforeTotal(a: string, b: string)
    ensures a == b || Before(a, b) || Before(b, a)
  {
    if a != "" && b != "" && a[0] == b[0] {
      BeforeTotal(a[1..], b[1..]);
      assert a == [a[0]] + a[1..] && b == [b[0]] + b[1..];
    }
  }

  /** With equally long heads, the heads decide and equal heads leave it to the tails. */
  lemma {:induction false} BeforeByParts(a: string, b: string, x: string, y: string)
    requires |a| == |b|
    ensures Before(a, b) ==> Before(a + x, b + y)
    ensures a == b ==> (Before(a + x, b + y) <==> Before(x, y))
  {
    if a == "" {
      assert a + x == x && b + y == y;
    } else {
      assert (a + x)[1..] == a[1..] + x && (b + y)[1..] == b[1..] + y;
      BeforeByParts(a[1..], b[1..], x, y);
    }
  }

  lemma {:induction false} PaddedOrders(n: nat, m: nat, width: nat)
    requires width >= 1 && n < m < Pow10(width)
    ensures Before(Padded(n, width), Padded(m, width))
  {
    PaddedWidth(n, width);
    PaddedWidth(m, width);
    if width > 1 {
      PaddedWidth(n / 10, width - 1);
      PaddedWidth(m / 10, width - 1);
      var a, b := Padded(n / 10, width - 1), Padded(m / 10, width - 1);
      if n / 10 < m / 10 { PaddedOrders(n / 10, m / 10, width - 1); }
      BeforeByParts(a, b, [DigitOf(n % 10)], [DigitOf(m % 10)]);
    }
  }

  // --- occurrences ----------------------------------------------------------

  predicate OccursAt(text: string, part: string, i: nat) {
    i + |part| <= |text| && text[i..i + |part|] == part
  }

  predicate Contains(text: string, part: string) {
    exists i :: 0 <= i <= |text| && OccursAt(text, part, i)
  }

  /** The first place `part` occurs in `text`, as `indexOf` and `split_once` find it. */
  function IndexOf(text: string, part: string): (r: Option<nat>)
    ensures r.None? <==> !Contains(text, part)
    ensures r.Some? ==> OccursAt(text, part, r.value) && forall i :: 0 <= i < r.value ==> !OccursAt(text, part, i)
  {
    IndexFrom(text, part, 0)
  }

  function IndexFrom(text: string, part: string, from: nat): (r: Option<nat>)
    requires from <= |text|
    ensures r.None? <==> forall i :: from <= i <= |text| ==> !OccursAt(text, part, i)
    ensures r.Some? ==> from <= r.value && OccursAt(text, part, r.value)
    ensures r.Some? ==> forall i :: from <= i < r.value ==> !OccursAt(text, part, i)
    decreases |text| - from
  {
    if OccursAt(text, part, from) then Some(from)
    else if from == |text| then None
    else IndexFrom(text, part, from + 1)
  }

  /** The first `c` at or after `from`, or the end of the text. */
  function IndexOfChar(text: string, c: char, from: nat): (r: nat)
    requires from <= |text|
    ensures from <= r <= |text|
    ensures r < |text| ==> text[r] == c
    ensures forall i :: from <= i < r ==> text[i] != c
    decreases |text| - from
  {
    if from == |text| || text[from] == c then from else IndexOfChar(text, c, from + 1)
  }

  predicate StartsWith(text: string, head: string) {
    |head| <= |text| && text[..|head|] == head
  }

  // --- joining and splitting --------------------------------------------------

  function Join(parts: seq<string>, sep: char): string {
    if parts == [] then ""
    else if |parts| == 1 then parts[0]
    else parts[0] + [sep] + Join(parts[1..], sep)
  }

  /** The pieces between separators, as `split` on one character gives them. */
  function Split(text: string, sep: char): (parts: seq<string>)
    ensures |parts| >= 1
  {
    if text == "" then [""]
    else
      var rest := Split(text[1..], sep);
      if text[0] == sep then [""] + rest else [[text[0]] + rest[0]] + rest[1..]
  }

  lemma {:induction false} SplitAround(head: string, tail: string, sep: char)
    requires sep !in head
    ensures Split(head, sep) == [head]
    ensures Split(head + [sep] + tail, sep) == [head] + Split(tail, sep)
  {
    var text := head + [sep] + tail;
    if head == "" {
      assert text[1..] == tail;
    } else {
      SplitAround(head[1..], tail, sep);
      assert text[1..] == head[1..] + [sep] + tail;
      assert head == [head[0]] + head[1..];
    }
  }

  /** Splitting undoes joining when no part holds the separator, and only then. */
  lemma SplitUndoesJoin(parts: seq<string>, sep: char)
    requires parts != []
    ensures Split(Join(parts, sep), sep) == parts <==> forall i :: 0 <= i < |parts| ==> sep !in parts[i]
  {
    if forall i :: 0 <= i < |parts| ==> sep !in parts[i] {
      JoinSplits(parts, sep);
    } else if Split(Join(parts, sep), sep) == parts {
      PiecesAreClean(Join(parts, sep), sep);
    }
  }

  lemma {:induction false} JoinSplits(parts: seq<string>, sep: char)
    requires parts != [] && forall i :: 0 <= i < |parts| ==> sep !in parts[i]
    ensures Split(Join(parts, sep), sep) == parts
  {
    hide Split;
    if |parts| == 1 {
      SplitAround(parts[0], "", sep);
    } else {
      var tail := Join(parts[1..], sep);
      SplitAround(parts[0], tail, sep);
      JoinSplits(parts[1..], sep);
      assert parts == [parts[0]] + parts[1..];
    }
  }

  lemma {:induction false} PiecesAreClean(text: string, sep: char)
    ensures forall i :: 0 <= i < |Split(text, sep)| ==> sep !in Split(text, sep)[i]
  {
    if text == "" {
    } else {
      PiecesAreClean(text[1..], sep);
    }
  }
}
