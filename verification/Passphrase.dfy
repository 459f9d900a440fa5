/** Backup passphrases: six words drawn without bias, joined by a dash no word holds. */
module Passphrase {
  import opened Text

  const TWO_32 := 0x1_0000_0000
  const MAX := TWO_32 - 1
  const SEPARATOR := '-'
  const PASSPHRASE_WORDS := 6

  type Word32 = v: int | 0 <= v < TWO_32

  // --- a uniform index ----------------------------------------------------------

  /** The last draw that is not rejected: in 32 bits, without wrapping. */
  function Limit(len: Word32): (limit: Word32)
    requires len != 0
    ensures limit + 1 == len * (MAX / len)
  {
    MAX - MAX % len - 1
  }

  function Accepted(draws: seq<Word32>, limit: Word32): (kept: seq<Word32>)
    ensures forall v :: v in kept ==> v <= limit
  {
    if draws == [] then []
    else if draws[0] <= limit then [draws[0]] + Accepted(draws[1..], limit)
    else Accepted(draws[1..], limit)
  }

  /** Draws until one is not rejected; `None` while the source would still be drawing. */
  method UniformIndex(len: nat, draws: seq<Word32>) returns (index: Option<nat>, used: nat)
    requires len % TWO_32 != 0
    ensures used <= |draws|
    ensures var kept := Accepted(draws, Limit(len % TWO_32));
            if kept == [] then index == None && used == |draws|
            else index == Some(kept[0] % (len % TWO_32)) && kept == [kept[0]] + Accepted(draws[used..],
                Limit(len % TWO_32))
  {
    var len32: Word32 := len % TWO_32;
    var limit := Limit(len32);
    used := 0;
    assert draws[0..] == draws;
    while used < |draws|
      invariant used <= |draws|
      invariant Accepted(draws[used..], limit) == Accepted(draws, limit)
    {
      var value := draws[used];
      assert draws[used..][1..] == draws[used + 1..];
      used := used + 1;
      if value <= limit {
        return Some(value % len32), used;
      }
    }
    return None, used;
  }

  /** The draws below `n` that land on index `i`. */
  function Landing(n: nat, len: nat, i: nat): set<nat>
    requires len > 0
  {
    set v: nat | v < n && v % len == i
  }

  /** Of the numbers below `n`, every index is hit equally often, but for a tail that hits the
      first `n % len` once more. */
  lemma {:induction false} LandingCount(n: nat, len: nat, i: nat)
    requires i < len
    ensures |Landing(n, len, i)| == n / len + (if i < n % len then 1 else 0)
  {
    if n == 0 {
      assert Landing(0, len, i) == {};
      Divided(0, len, 0, 0);
    } else {
      LandingCount(n - 1, len, i);
      var q, r := (n - 1) / len, (n - 1) % len;
      if r + 1 < len { Divided(n, len, q, r + 1); } else { Divided(n, len, q + 1, 0); }
      OneMore(n - 1, len, i);
    }
  }

  lemma OneMore(n: nat, len: nat, i: nat)
    requires i < len
    ensures |Landing(n + 1, len, i)| == |Landing(n, len, i)| + (if n % len == i then 1 else 0)
  {
    assert Landing(n + 1, len, i) == if n % len == i then Landing(n, len, i) + {n} else Landing(n, len, i);
  }

  lemma Divided(n: nat, len: nat, q: nat, r: nat)
    requires len > 0 && n == q * len + r && r < len
    ensures n / len == q && n % len == r
  {
    var d := n / len - q;
    assert n == (n / len) * len + n % len;
    assert d * len == r - n % len;
    assert d >= 1 ==> d * len >= len;
    assert d <= -1 ==> d * len + len <= 0;
  }

  /** The draws let through that land on `i`: the same number for every index. */
  lemma EveryIndexAlike(len: Word32, i: nat)
    requires i < len
    ensures |Landing(Limit(len) + 1, len, i)| == MAX / len
  {
    var q := MAX / len;
    Divided(len * q, len, q, 0);
    LandingCount(len * q, len, i);
  }

  /** A bare modulus over all draws treats every index alike exactly when the length divides
      2^32, and then the first indices are the favoured ones. */
  lemma ModulusIsBiased(len: Word32, i: nat)
    requires i < len
    ensures |Landing(TWO_32, len, i)| == TWO_32 / len + (if i < TWO_32 % len then 1 else 0)
    ensures (forall j: nat :: j < len ==> |Landing(TWO_32, len, j)| == |Landing(TWO_32, len, i)|) <==> TWO_32 % len == 0
  {
    forall j: nat | j < len ensures |Landing(TWO_32, len, j)| == TWO_32 / len + (if j < TWO_32 % len then 1 else 0) {
      LandingCount(TWO_32, len, j);
    }
    assert |Landing(TWO_32, len, 0)| == TWO_32 / len + (if 0 < TWO_32 % len then 1 else 0);
    assert |Landing(TWO_32, len, len - 1)| == TWO_32 / len;
  }

  // --- a passphrase ------------------------------------------------------------------

  /** The lines that are words: no comment, not blank, and without the separator. */
  function Wordlist(lines: seq<string>, blank: string -> bool): (words: seq<string>)
    ensures forall w :: w in words <==> w in lines && !StartsWith(w, "#") && !blank(w) && SEPARATOR !in w
  {
    if lines == [] then []
    else
      var rest, line := Wordlist(lines[1..], blank), lines[0];
      if StartsWith(line, "#") || blank(line) || SEPARATOR in line then rest else [line] + rest
  }

  /** The words the draws pick. */
  function Picked(words: seq<string>, kept: seq<Word32>): (picks: seq<string>)
    requires |words| % TWO_32 != 0
    ensures |picks| == |kept|
    ensures forall k :: 0 <= k < |kept| ==> picks[k] == words[kept[k] % (|words| % TWO_32)]
  {
    seq(|kept|, k requires 0 <= k < |kept| => words[kept[k] % (|words| % TWO_32)])
  }

  method GeneratePassphrase(lines: seq<string>, blank: string -> bool, draws: seq<Word32>)
                            returns (phrase: Option<string>)
    requires |Wordlist(lines, blank)| % TWO_32 != 0
    ensures var words := Wordlist(lines, blank);
            var kept := Accepted(draws, Limit(|words| % TWO_32));
            phrase == if |kept| < PASSPHRASE_WORDS then None
                      else Some(Join(Picked(words, kept[..PASSPHRASE_WORDS]), SEPARATOR))
  {
    var words := Wordlist(lines, blank);
    var picks: seq<string> := [];
    var rest := draws;
    hide Wordlist, Limit, Accepted;
    ghost var limit := Limit(|words| % TWO_32);
    ghost var kept := Accepted(draws, limit);
    for n := 0 to PASSPHRASE_WORDS
      invariant |picks| == n <= |kept|
      invariant forall k :: 0 <= k < n ==> picks[k] == words[kept[k] % (|words| % TWO_32)]
      invariant Accepted(rest, limit) == kept[n..]
    {
      var index, used := UniformIndex(|words|, rest);
      if index.None? {
        return None;
      }
      picks := picks + [words[index.value]];
      rest := rest[used..];
    }
    assert picks == Picked(words, kept[..PASSPHRASE_WORDS]);
    return Some(Join(picks, SEPARATOR));
  }

  /** The phrase cuts back into exactly the six words drawn, because none of them holds a dash. */
  lemma PhraseSplitsBack(lines: seq<string>, blank: string -> bool, kept: seq<Word32>)
    requires |Wordlist(lines, blank)| % TWO_32 != 0 && |kept| == PASSPHRASE_WORDS
    ensures var picks := Picked(Wordlist(lines, blank), kept);
            Split(Join(picks, SEPARATOR), SEPARATOR) == picks && |picks| == PASSPHRASE_WORDS
  {
    var picks := Picked(Wordlist(lines, blank), kept);
    forall k | 0 <= k < |picks| ensures SEPARATOR !in picks[k] {
      assert picks[k] in Wordlist(lines, blank);
    }
    SplitUndoesJoin(picks, SEPARATOR);
  }

  /** Different draws make different phrases: with no word twice in the list, two phrases agree
      exactly when all six indices do. */
  lemma {:induction false} PhrasesDiffer(lines: seq<string>, blank: string -> bool, a: seq<Word32>, b: seq<Word32>)
    requires var words := Wordlist(lines, blank);
             && 0 < |words| < TWO_32 && |a| == |b| == PASSPHRASE_WORDS
             && forall i, j :: 0 <= i < j < |words| ==> words[i] != words[j]
    ensures var words := Wordlist(lines, blank);
            Join(Picked(words, a), SEPARATOR) == Join(Picked(words, b), SEPARATOR)
            <==> forall k :: 0 <= k < PASSPHRASE_WORDS ==> a[k] % |words| == b[k] % |words|
  {
    var words := Wordlist(lines, blank);
    PhraseSplitsBack(lines, blank, a);
    PhraseSplitsBack(lines, blank, b);
    var p, q := Picked(words, a), Picked(words, b);
    hide Wordlist, Split, Join;
    if forall k :: 0 <= k < PASSPHRASE_WORDS ==> a[k] % |words| == b[k] % |words| {
      assert p == q;
    }
    if Join(p, SEPARATOR) == Join(q, SEPARATOR) {
      forall k | 0 <= k < PASSPHRASE_WORDS ensures a[k] % |words| == b[k] % |words| {
        assert p[k] == q[k];
      }
    }
  }
}
