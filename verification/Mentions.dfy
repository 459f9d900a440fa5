/** Who a message addresses: `@` and a name, matched against the names themselves. */
module Mentions {
  import opened Sorting
  import opened Text

  /** How the platform reads text: its lower case, its trimming, its letters and digits. */
  datatype Script = Script(lower: string -> string, trim: string -> string, letterOrDigit: char -> bool)

  /** What a matched name may neither follow nor run into. */
  predicate NameChar(script: Script, c: char) {
    script.letterOrDigit(c) || c == '_' || c == '-'
  }

  /** A candidate as given, and the way it is looked for. */
  datatype Entry = Entry(name: string, key: string)

  function KeyOf(script: Script, name: string): string {
    script.lower(script.trim(name))
  }

  // --- what it is to be addressed ---------------------------------------------------

  /** An `@` no name runs into. */
  predicate StartsWord(script: Script, lowered: string, at: nat) {
    at < |lowered| && lowered[at] == '@' && (at == 0 || !NameChar(script, lowered[at - 1]))
  }

  /** The key follows the `@` whole and ends at a boundary. */
  predicate Follows(script: Script, lowered: string, at: nat, key: string)
    requires at < |lowered|
  {
    var rest := lowered[at + 1..];
    StartsWith(rest, key) && (|rest| == |key| || !NameChar(script, rest[|key|]))
  }

  function FirstIndex(names: seq<string>, name: string): (i: nat)
    requires name in names
    ensures i < |names| && names[i] == name && forall j :: 0 <= j < i ==> names[j] != name
  {
    if names[0] == name then 0 else 1 + FirstIndex(names[1..], name)
  }

  /** Of the candidates that follow this `@`, `name` is the longest, and of equally long ones the
      first given. */
  ghost predicate Called(script: Script, lowered: string, names: seq<string>, at: nat, name: string) {
    && StartsWord(script, lowered, at)
    && name in names && KeyOf(script, name) != "" && Follows(script, lowered, at, KeyOf(script, name))
    && (forall other ::
          other in names && KeyOf(script, other) != "" && Follows(script, lowered, at, KeyOf(script, other)) ==>
          |KeyOf(script, other)| < |KeyOf(script, name)|
          || (|KeyOf(script, other)| == |KeyOf(script, name)| && FirstIndex(names, name) <= FirstIndex(names, other)))
  }

  ghost predicate CalledBefore(script: Script, lowered: string, names: seq<string>, upTo: nat, name: string) {
    exists at: nat :: at < upTo && Called(script, lowered, names, at, name)
  }

  /** The text reaches `name` before it first reaches `other`. */
  ghost predicate ReachedSooner(script: Script, lowered: string, names: seq<string>, name: string, other: string) {
    exists at: nat :: Called(script, lowered, names, at, name) && !CalledBefore(script, lowered, names, at + 1, other)
  }

  /** The names called before `upTo`: each once, in the order the text first reaches them. */
  ghost predicate CalledInOrder(script: Script, lowered: string, names: seq<string>, upTo: nat, found: seq<string>) {
    && (forall n :: n in found <==> CalledBefore(script, lowered, names, upTo, n))
    && (forall i, j :: 0 <= i < j < |found| ==>
          found[i] != found[j] && ReachedSooner(script, lowered, names, found[i], found[j]))
  }

  // --- how it is found ----------------------------------------------------------------

  /** `new Set`: each name where it first stands. */
  function Unique(names: seq<string>): (u: seq<string>)
    ensures forall n :: n in u <==> n in names
  {
    if names == [] then []
    else
      var init, last := names[..|names| - 1], names[|names| - 1];
      assert names == init + [last];
      if last in init then Unique(init) else Unique(init) + [last]
  }

  function Entries(script: Script, names: seq<string>): seq<Entry> {
    if names == [] then []
    else
      var rest, name := Entries(script, names[..|names| - 1]), names[|names| - 1];
      if KeyOf(script, name) == "" then rest else rest + [Entry(name, KeyOf(script, name))]
  }

  /** Longest key first. */
  function Shortness(): Entry -> int {
    (e: Entry) => -|e.key|
  }

  function Wanted(script: Script, names: seq<string>): seq<Entry> {
    StableSort(Entries(script, Unique(names)), Shortness())
  }

  function FirstMatch(script: Script, wanted: seq<Entry>, lowered: string, at: nat): (hit: Option<Entry>)
    requires at < |lowered|
    ensures hit.None? ==> forall i :: 0 <= i < |wanted| ==> !Follows(script, lowered, at, wanted[i].key)
    ensures hit.Some? ==> exists i ::
              && 0 <= i < |wanted| && wanted[i] == hit.value && Follows(script, lowered, at, hit.value.key)
              && forall j :: 0 <= j < i ==> !Follows(script, lowered, at, wanted[j].key)
  {
    if wanted == [] then None
    else if Follows(script, lowered, at, wanted[0].key) then Some(wanted[0])
    else
      var hit := FirstMatch(script, wanted[1..], lowered, at);
      hit
  }

  ghost predicate Given(names: seq<string>, a: Entry, b: Entry) {
    a.name in names && b.name in names && FirstIndex(names, a.name) < FirstIndex(names, b.name)
  }

  lemma FirstIndexOfPrefix(names: seq<string>, name: string)
    requires names != [] && name in names
    ensures var init := names[..|names| - 1];
            FirstIndex(names, name) == if name in init then FirstIndex(init, name) else |init|
  {
  }

  ghost predicate AsGiven(names: seq<string>, ns: seq<string>) {
    && (forall i :: 0 <= i < |ns| ==> ns[i] in names)
    && (forall i, j :: 0 <= i < j < |ns| ==> FirstIndex(names, ns[i]) < FirstIndex(names, ns[j]))
  }

  lemma {:induction false} UniqueInOrder(names: seq<string>)
    ensures AsGiven(names, Unique(names))
  {
    if names == [] {
    } else {
      var init, u := names[..|names| - 1], Unique(names);
      UniqueInOrder(init);
      hide FirstIndex;
      forall i, j | 0 <= i < j < |u| ensures FirstIndex(names, u[i]) < FirstIndex(names, u[j]) {
        assert u[i] in names && u[j] in names;
        assert u[i] == Unique(init)[i];
        FirstIndexOfPrefix(names, u[i]);
        FirstIndexOfPrefix(names, u[j]);
      }
    }
  }

  lemma {:induction false} EntriesInOrder(script: Script, names: seq<string>, ns: seq<string>)
    requires AsGiven(names, ns)
    ensures Increasing(Entries(script, ns), (a, b) => Given(names, a, b))
    ensures forall e :: e in Entries(script, ns) <==> e.name in ns && e.key == KeyOf(script, e.name) != ""
  {
    hide FirstIndex, KeyOf;
    if ns != [] {
      EntriesInOrder(script, names, ns[..|ns| - 1]);
      assert ns == ns[..|ns| - 1] + [ns[|ns| - 1]];
    }
  }

  /** `a` is tried before `b`: it is longer, or as long and given first. */
  ghost predicate TriedFirst(names: seq<string>, a: Entry, b: Entry) {
    |a.key| > |b.key| || (|a.key| == |b.key| && Given(names, a, b))
  }

  lemma WantedMeans(script: Script, names: seq<string>)
    ensures var wanted := Wanted(script, names);
            && (forall i, j :: 0 <= i < j < |wanted| ==> TriedFirst(names, wanted[i], wanted[j]))
            && (forall e :: e in wanted <==> e.name in names && e.key == KeyOf(script, e.name) != "")
  {
    hide Unique, StableSort, FirstIndex, KeyOf, Entries, Given;
    UniqueInOrder(names);
    EntriesInOrder(script, names, Unique(names));
    var given := (a: Entry, b: Entry) => Given(names, a, b);
    SortMeans(Entries(script, Unique(names)), Shortness(), given);
    var wanted := Wanted(script, names);
    forall i, j | 0 <= i < j < |wanted| ensures TriedFirst(names, wanted[i], wanted[j]) {
      assert Ahead(wanted[i], wanted[j], Shortness(), given);
    }
  }

  /** The first wanted name that matches is the one called; if none matches nobody is. */
  lemma HitIsCalled(script: Script, names: seq<string>, lowered: string, at: nat)
    requires StartsWord(script, lowered, at)
    ensures match FirstMatch(script, Wanted(script, names), lowered, at)
            case Some(e) => Called(script, lowered, names, at, e.name)
            case None => forall n :: !Called(script, lowered, names, at, n)
  {
    assert at < |lowered|;
    hide Wanted, FirstMatch, Follows, StartsWord, FirstIndex, KeyOf, TriedFirst;
    WantedMeans(script, names);
    var wanted := Wanted(script, names);
    forall n | n in names && KeyOf(script, n) != ""
      ensures exists i :: 0 <= i < |wanted| && wanted[i] == Entry(n, KeyOf(script, n))
    {
      assert Entry(n, KeyOf(script, n)) in wanted;
    }
    var hit := FirstMatch(script, wanted, lowered, at);
    if hit.Some? {
      var i :| 0 <= i < |wanted| && wanted[i] == hit.value && forall j :: 0 <= j < i ==>
          !Follows(script, lowered, at, wanted[j].key);
      forall other | other in names && KeyOf(script, other) != "" && Follows(script, lowered, at, KeyOf(script, other))
        ensures |KeyOf(script, other)| < |hit.value.key|
                || (|KeyOf(script, other)| == |hit.value.key|
                    && FirstIndex(names, hit.value.name) <= FirstIndex(names, other))
      {
        var j :| 0 <= j < |wanted| && wanted[j] == Entry(other, KeyOf(script, other));
        LaterTried(names, wanted, i, j);
      }
    }
  }

  lemma LaterTried(names: seq<string>, wanted: seq<Entry>, i: nat, j: nat)
    requires forall a, b :: 0 <= a < b < |wanted| ==> TriedFirst(names, wanted[a], wanted[b])
    requires i <= j < |wanted| && wanted[i].name in names && wanted[j].name in names
    ensures |wanted[j].key| < |wanted[i].key|
            || (|wanted[j].key| == |wanted[i].key|
                && FirstIndex(names, wanted[i].name) <= FirstIndex(names, wanted[j].name))
  {
    assert i == j || TriedFirst(names, wanted[i], wanted[j]);
  }

  lemma OneNameAtATime(script: Script, names: seq<string>, lowered: string, at: nat, n: string, m: string)
    requires Called(script, lowered, names, at, n) && Called(script, lowered, names, at, m)
    ensures n == m
  {
    hide Follows, KeyOf, StartsWord;
    assert FirstIndex(names, n) == FirstIndex(names, m);
  }

  lemma NobodyUpTo(script: Script, lowered: string, names: seq<string>, upTo: nat, more: nat, found: seq<string>)
    requires CalledInOrder(script, lowered, names, upTo, found) && upTo <= more
    requires forall at: nat, n :: upTo <= at < more ==> !Called(script, lowered, names, at, n)
    ensures CalledInOrder(script, lowered, names, more, found)
  {
    hide Called, ReachedSooner;
    forall n ensures CalledBefore(script, lowered, names, more, n) <==> CalledBefore(script, lowered, names, upTo, n) {
    }
  }

  lemma NoWordUpTo(script: Script, lowered: string, names: seq<string>, upTo: nat, more: nat, found: seq<string>)
    requires CalledInOrder(script, lowered, names, upTo, found) && upTo <= more
    requires forall at: nat :: upTo <= at < more ==> !StartsWord(script, lowered, at)
    ensures CalledInOrder(script, lowered, names, more, found)
  {
    hide CalledInOrder, StartsWord;
    NobodyUpTo(script, lowered, names, upTo, more, found);
  }

  lemma OneCalledAt(script: Script, lowered: string, names: seq<string>, at: nat, found: seq<string>, name: string)
    requires CalledInOrder(script, lowered, names, at, found) && Called(script, lowered, names, at, name)
    ensures CalledInOrder(script, lowered, names, at + 1, if name in found then found else found + [name])
  {
    forall n | Called(script, lowered, names, at, n) ensures n == name {
      OneNameAtATime(script, names, lowered, at, n, name);
    }
    hide Called;
    forall n
      ensures CalledBefore(script, lowered, names, at + 1, n) <==>
                CalledBefore(script, lowered, names, at, n) || n == name
    {
    }
    hide CalledBefore;
    if name !in found {
      forall n | n in found ensures ReachedSooner(script, lowered, names, n, name) {
        FirstReached(script, lowered, names, at, n, name);
      }
    }
  }

  lemma FirstReached(script: Script, lowered: string, names: seq<string>, at: nat, name: string, other: string)
    requires CalledBefore(script, lowered, names, at, name) && !CalledBefore(script, lowered, names, at, other)
    ensures ReachedSooner(script, lowered, names, name, other)
  {
    hide Called;
    var a: nat :| a < at && Called(script, lowered, names, a, name);
    assert !CalledBefore(script, lowered, names, a + 1, other);
  }

  method AddressedNames(script: Script, text: string, candidates: seq<string>) returns (found: seq<string>)
    ensures CalledInOrder(script, script.lower(text), candidates, |script.lower(text)|, found)
  {
    var lowered := script.lower(text);
    var wanted := Wanted(script, candidates);
    found := [];
    hide Wanted, FirstMatch, NameChar, Follows, Called, CalledInOrder;
    NobodyYet(script, lowered, candidates);
    if wanted == [] {
      NobodyWanted(script, lowered, candidates);
      return;
    }
    var at := IndexOfChar(lowered, '@', 0);
    NoWordUpTo(script, lowered, candidates, 0, at, found);
    while at < |lowered|
      invariant at <= |lowered|
      invariant CalledInOrder(script, lowered, candidates, at, found)
      invariant at < |lowered| ==> lowered[at] == '@'
    {
      if at == 0 || !NameChar(script, lowered[at - 1]) {
        HitIsCalled(script, candidates, lowered, at);
        var hit := FirstMatch(script, wanted, lowered, at);
        if hit.Some? {
          OneCalledAt(script, lowered, candidates, at, found, hit.value.name);
          if hit.value.name !in found {
            found := found + [hit.value.name];
          }
        } else {
          NobodyUpTo(script, lowered, candidates, at, at + 1, found);
        }
      } else {
        NoWordUpTo(script, lowered, candidates, at, at + 1, found);
      }
      var next := IndexOfChar(lowered, '@', at + 1);
      NoWordUpTo(script, lowered, candidates, at + 1, next, found);
      at := next;
    }
  }

  lemma NobodyYet(script: Script, lowered: string, names: seq<string>)
    ensures CalledInOrder(script, lowered, names, 0, [])
  {
  }

  lemma NobodyWanted(script: Script, lowered: string, names: seq<string>)
    requires Wanted(script, names) == []
    ensures CalledInOrder(script, lowered, names, |lowered|, [])
  {
    hide Wanted, Called;
    forall at: nat, n ensures !Called(script, lowered, names, at, n) {
      NotCalled(script, lowered, names, at, n);
    }
  }

  lemma NotCalled(script: Script, lowered: string, names: seq<string>, at: nat, n: string)
    requires Wanted(script, names) == []
    ensures !Called(script, lowered, names, at, n)
  {
    hide Wanted;
    if StartsWord(script, lowered, at) { HitIsCalled(script, names, lowered, at); }
  }

  // --- picking a name ---------------------------------------------------------------------

  /** The partial mention the caret sits in. */
  datatype Query = Query(query: string, start: nat)

  function LastIndexOf(text: string, c: char): (r: Option<nat>)
    ensures r.None? ==> c !in text
    ensures r.Some? ==> r.value < |text| && text[r.value] == c && c !in text[r.value + 1..]
  {
    if text == "" then None
    else if text[|text| - 1] == c then Some(|text| - 1)
    else
      assert text == text[..|text| - 1] + [text[|text| - 1]];
      LastIndexOf(text[..|text| - 1], c)
  }

  function UpTo(text: string, n: nat): string {
    if n <= |text| then text[..n] else text
  }

  function From(text: string, n: nat): string {
    if n <= |text| then text[n..] else ""
  }

  function MentionQueryAt(script: Script, text: string, caret: nat): Option<Query> {
    var before := UpTo(text, caret);
    match LastIndexOf(before, '@')
    case None => None
    case Some(at) =>
      if script.letterOrDigit(if at > 0 then before[at - 1] else ' ') then None
      else if '\n' in before[at + 1..] then None
      else Some(Query(script.lower(before[at + 1..]), at))
  }

  /** The picker is open exactly where the last `@` before the caret, on the caret's line, follows no letter
      or digit; and it looks for what stands between the two, in lower case. */
  lemma QueryExactly(script: Script, text: string, caret: nat, q: string, start: nat)
    requires !script.letterOrDigit(' ')
    ensures var before := UpTo(text, caret);
            MentionQueryAt(script, text, caret) == Some(Query(q, start)) <==>
              && start < |before| && before[start] == '@'
              && (forall i :: start < i < |before| ==> before[i] != '@' && before[i] != '\n')
              && (start == 0 || !script.letterOrDigit(before[start - 1]))
              && q == script.lower(before[start + 1..])
  {
    var before := UpTo(text, caret);
    var at := LastIndexOf(before, '@');
    hide LastIndexOf;
    if at.Some? {
      var rest := before[at.value + 1..];
      assert forall i :: at.value < i < |before| ==> before[i] == rest[i - at.value - 1];
    }
  }

  datatype Edit = Edit(text: string, caret: nat)

  function ApplyMention(text: string, start: nat, caret: nat, name: string): Edit {
    Edit(UpTo(text, start) + "@" + name + " " + From(text, caret), start + |name| + 2)
  }

  /** A pick changes what stands between its `@` and the caret, and leaves the caret behind the space. */
  lemma PickedInPlace(text: string, start: nat, caret: nat, name: string)
    requires start <= caret <= |text|
    ensures var e := ApplyMention(text, start, caret, name);
            && e.caret <= |e.text|
            && e.text[..e.caret] == text[..start] + "@" + name + " " && e.text[e.caret..] == text[caret..]
  {
    var front := text[..start] + "@" + name + " ";
    assert (front + text[caret..])[..|front|] == front && (front + text[caret..])[|front|..] == text[caret..];
  }

  function Mapped(s: string, f: char -> char): string {
    if s == "" then "" else Mapped(s[..|s| - 1], f) + [f(s[|s| - 1])]
  }

  /** Lower case character by character, keeping what is an `@`, a space or part of a name. */
  ghost predicate Charwise(script: Script, f: char -> char) {
    && (forall s :: script.lower(s) == Mapped(s, f))
    && (forall c :: (f(c) == '@' <==> c == '@') && (NameChar(script, f(c)) <==> NameChar(script, c)))
    && f(' ') == ' ' && !script.letterOrDigit(' ')
  }

  lemma {:induction false} MappedParts(a: string, b: string, f: char -> char)
    ensures |Mapped(a, f)| == |a| && (forall i :: 0 <= i < |a| ==> Mapped(a, f)[i] == f(a[i]))
    ensures Mapped(a + b, f) == Mapped(a, f) + Mapped(b, f)
    decreases |a| + |b|
  {
    if b == "" {
      assert a + b == a;
      if a != "" { MappedParts(a[..|a| - 1], "", f); }
    } else {
      var c := a + b;
      assert c[..|c| - 1] == a + b[..|b| - 1];
      MappedParts(a, b[..|b| - 1], f);
    }
  }

  /** A picked name stands behind its `@` whole, with a space to end it. */
  lemma PickFollows(script: Script, f: char -> char, head: string, name: string, tail: string)
    requires Charwise(script, f)
    ensures var lowered := script.lower(head + "@" + name + " " + tail);
            && |head| < |lowered| && lowered[|head|] == '@'
            && (|head| > 0 ==> (NameChar(script, lowered[|head| - 1]) <==> NameChar(script, head[|head| - 1])))
            && Follows(script, lowered, |head|, script.lower(name))
  {
    hide Mapped, NameChar;
    var rest := name + (" " + tail);
    var text := head + ("@" + rest);
    assert head + "@" + name + " " + tail == text;
    MappedParts(head, "@" + rest, f);
    MappedParts("@", rest, f);
    FollowsItself(script, f, name, tail);
    var lowered, m := script.lower(text), Mapped(rest, f);
    assert lowered == Mapped(head, f) + (Mapped("@", f) + m);
    assert lowered[|head| + 1..] == m;
  }

  lemma FollowsItself(script: Script, f: char -> char, name: string, tail: string)
    requires Charwise(script, f)
    ensures var m, key := Mapped(name + (" " + tail), f), script.lower(name);
            StartsWith(m, key) && |m| > |key| && !NameChar(script, m[|key|])
  {
    hide Mapped;
    MappedParts(name, " " + tail, f);
    MappedParts(" ", tail, f);
    assert Mapped(" " + tail, f)[0] == Mapped(" ", f)[0] == ' ';
  }

  lemma SomebodyIsCalled(script: Script, names: seq<string>, lowered: string, at: nat, name: string)
    requires StartsWord(script, lowered, at) && name in names
    requires KeyOf(script, name) != "" && Follows(script, lowered, at, KeyOf(script, name))
    ensures exists n :: Called(script, lowered, names, at, n)
  {
    HitIsCalled(script, names, lowered, at);
    WantedMeans(script, names);
    hide Wanted, Follows, Called, StartsWord, KeyOf;
    assert Entry(name, KeyOf(script, name)) in Wanted(script, names);
  }

  /** A name picked from the list the picker offers calls somebody exactly when no `_` or `-`
      stands right before the `@`: the picker opens there, the message then reaches nobody. Whoever
      is called has that name's key or a longer one. */
  lemma PickThenSend(script: Script, f: char -> char, text: string, caret: nat, names: seq<string>, name: string)
    requires Charwise(script, f) && name in names && script.trim(name) == name && name != ""
    requires MentionQueryAt(script, text, caret).Some?
    ensures var start := MentionQueryAt(script, text, caret).value.start;
            var lowered := script.lower(ApplyMention(text, start, caret, name).text);
            && ((exists n :: Called(script, lowered, names, start, n)) <==>
                  start == 0 || (text[start - 1] != '_' && text[start - 1] != '-'))
            && (forall n :: Called(script, lowered, names, start, n) ==>
                  KeyOf(script, n) == KeyOf(script, name) || |KeyOf(script, n)| > |KeyOf(script, name)|)
  {
    hide Mapped, Called, Follows, From, LastIndexOf;
    var start := MentionQueryAt(script, text, caret).value.start;
    var head, tail := text[..start], From(text, caret);
    MappedParts(name, "", f);
    PickFollows(script, f, head, name, tail);
    var lowered := script.lower(head + "@" + name + " " + tail);
    if start == 0 || (text[start - 1] != '_' && text[start - 1] != '-') {
      SomebodyIsCalled(script, names, lowered, start, name);
    }
    forall n | Called(script, lowered, names, start, n)
      ensures StartsWord(script, lowered, start)
      ensures KeyOf(script, n) == KeyOf(script, name) || |KeyOf(script, n)| > |KeyOf(script, name)|
    {
      LongestCalled(script, lowered, names, start, n, name);
    }
  }

  lemma LongestCalled(script: Script, lowered: string, names: seq<string>, at: nat, n: string, name: string)
    requires Called(script, lowered, names, at, n) && name in names
    requires KeyOf(script, name) != "" && Follows(script, lowered, at, KeyOf(script, name))
    ensures StartsWord(script, lowered, at)
    ensures KeyOf(script, n) == KeyOf(script, name) || |KeyOf(script, n)| > |KeyOf(script, name)|
  {
    hide StartsWord, KeyOf;
  }
}
