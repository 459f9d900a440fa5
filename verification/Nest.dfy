/** `AGENTS.md`: the office's managed section between two markers, and the
    owner's text around it. */
module Nest {
  import opened Text

  const NEST_VERSION := 4
  const BEGIN_MARKER := "<!-- BEGIN QUINTAL MANAGED"
  const END_MARKER := "<!-- END QUINTAL MANAGED -->"

  /** `head`: before the begin marker; `beginRest`: the rest of its line; `tail`: after the end marker. */
  datatype Parts = Parts(head: string, beginRest: string, tail: string)

  function SplitAtMarkers(text: string): Option<Parts> {
    match (IndexOf(text, BEGIN_MARKER), IndexOf(text, END_MARKER))
    case (Some(begin), Some(end)) =>
      if end < begin then None
      else
        // the begin marker's line ends at its newline, or, if there is none in the text, at the end marker
        var lineEnd := IndexOfChar(text, '\n', begin);
        var upTo := if lineEnd == |text| then end else lineEnd;
        var from := begin + |BEGIN_MARKER|;
        Some(Parts(text[..begin], if from <= upTo then text[from..upTo] else "", text[end + |END_MARKER|..]))
    case _ => None
  }

  /** The file as it is put together again. */
  function Assembled(head: string, beginRest: string, managed: string, tail: string): string {
    head + BEGIN_MARKER + beginRest + "\n" + managed + "\n" + END_MARKER + tail
  }

  /** The two files of a workspace this writes; the version as it reads. */
  datatype Files = Files(agents: Option<string>, version: Option<int>)

  datatype Written = Written(files: Files, wroteAgents: bool, wroteVersion: bool, leftAlone: bool)

  function WriteAgents(f: Files, template: Parts, managed: string): Written {
    var parts := if f.agents.None? then None else SplitAtMarkers(f.agents.value);
    if f.agents.Some? && parts.None? then Written(f, false, false, true)
    else
      var stale := f.version != Some(NEST_VERSION);
      var head := if parts.None? || stale then template.head else parts.value.head;
      var tail := if parts.None? then template.tail else parts.value.tail;
      var next := Assembled(head, template.beginRest, managed, tail);
      Written(Files(Some(next), Some(NEST_VERSION)), f.agents != Some(next), stale, false)
  }

  class Workspace {
    var agents: Option<string>
    var version: Option<int>
    ghost var agentsWrites: nat
    ghost var versionWrites: nat

    constructor (agents: Option<string>, version: Option<int>)
      ensures Here() == Files(agents, version)
    {
      this.agents, this.version, agentsWrites, versionWrites := agents, version, 0, 0;
    }

    function Here(): Files
      reads this
    {
      Files(agents, version)
    }

    method WriteAgentsFile(template: Parts, managed: string) returns (leftAlone: bool)
      modifies this
      ensures var w := WriteAgents(old(Here()), template, managed);
              && Here() == w.files && leftAlone == w.leftAlone
              && agentsWrites == old(agentsWrites) + (if w.wroteAgents then 1 else 0)
              && versionWrites == old(versionWrites) + (if w.wroteVersion then 1 else 0)
    {
      var parts := if agents.None? then None else SplitAtMarkers(agents.value);
      if agents.Some? && parts.None? {
        // somebody's own file, without the markers: theirs
        return true;
      }
      var stale := version != Some(NEST_VERSION);
      var head := if parts.None? || stale then template.head else parts.value.head;
      var tail := if parts.None? then template.tail else parts.value.tail;
      var next := Assembled(head, template.beginRest, managed, tail);
      if agents != Some(next) {
        agents := Some(next);
        agentsWrites := agentsWrites + 1;
      }
      if stale {
        version := Some(NEST_VERSION);
        versionWrites := versionWrites + 1;
      }
      leftAlone := false;
    }
  }

  // --- markers do not straddle --------------------------------------------------

  /** Both markers start with the only `<` in them and hold no newline. */
  predicate MarkerLike(m: string) {
    m != "" && m[0] == '<' && forall i :: 0 < i < |m| ==> m[i] != '<' && m[i] != '\n'
  }

  /** They part company at the sixth character: `B` against `E`. */
  predicate Apart(begin: string, end: string) {
    |begin| > 5 && |end| > 5 && begin[5] != end[5]
  }

  lemma MarkerShapes()
    ensures MarkerLike(BEGIN_MARKER) && MarkerLike(END_MARKER) && Apart(BEGIN_MARKER, END_MARKER)
  {
  }

  lemma CharAt(text: string, part: string, i: nat, k: nat)
    requires OccursAt(text, part, i) && k < |part|
    ensures text[i + k] == part[k]
  {
    assert text[i..i + |part|][k] == part[k];
  }

  /** An occurrence in a stretch of a text is one in the text, and back. */
  lemma OccursInside(front: string, mid: string, back: string, part: string, k: nat)
    ensures k + |part| <= |mid| ==> (OccursAt(mid, part, k) <==> OccursAt(front + mid + back, part, |front| + k))
  {
    if k + |part| <= |mid| {
      assert (front + mid + back)[|front| + k..|front| + k + |part|] == mid[k..k + |part|];
    }
  }

  /** Text an owner may have above the managed section: neither marker is in it. */
  ghost predicate CleanHead(head: string) {
    !Contains(head, BEGIN_MARKER) && !Contains(head, END_MARKER)
  }

  /** A usable template: a clean head, and a begin line that ends before any end marker. */
  ghost predicate GoodTemplate(t: Parts) {
    CleanHead(t.head) && '\n' !in t.beginRest && !Contains(t.beginRest, END_MARKER)
  }

  lemma StretchContains(text: string, from: nat, upTo: nat, part: string)
    requires from <= upTo <= |text| && Contains(text[from..upTo], part)
    ensures exists i :: from <= i && i + |part| <= upTo && OccursAt(text, part, i)
  {
    var i :| 0 <= i <= upTo - from && OccursAt(text[from..upTo], part, i);
    assert text == text[..from] + text[from..upTo] + text[upTo..];
    OccursInside(text[..from], text[from..upTo], text[upTo..], part, i);
    assert OccursAt(text, part, from + i);
  }

  /** A marker that starts inside `front` ends inside it, when what follows starts with `<` or a newline. */
  lemma NoStraddle(front: string, back: string, m: string, i: nat)
    requires MarkerLike(m) && back != "" && (back[0] == '<' || back[0] == '\n')
    requires i < |front| && OccursAt(front + back, m, i)
    ensures Contains(front, m)
  {
    if i + |m| > |front| {
      CharAt(front + back, m, i, |front| - i);
    } else {
      OccursInside("", front, back, m, i);
      assert "" + front + back == front + back;
      assert OccursAt(front, m, i);
    }
  }

  /** With no marker above it, the marker put down is the first. */
  lemma FirstBegin(head: string, rest: string, m: string)
    requires MarkerLike(m) && !Contains(head, m)
    ensures IndexOf(head + m + rest, m) == Some(|head|)
  {
    var text := head + m + rest;
    assert text == head + (m + rest) && (m + rest)[0] == '<';
    assert OccursAt(text, m, |head|) by { OccursInside(head, m, rest, m, 0); }
    assert Contains(text, m);
    var i := IndexOf(text, m).value;
    if i < |head| { NoStraddle(head, m + rest, m, i); }
  }

  /** Head, begin marker and the rest of its line hold no end marker between them. */
  lemma NoEndAbove(head: string, begin: string, beginRest: string, end: string)
    requires MarkerLike(begin) && MarkerLike(end) && Apart(begin, end)
    requires !Contains(head, end) && !Contains(beginRest, end)
    ensures !Contains(head + begin + beginRest, end)
  {
    var text := head + begin + beginRest;
    forall i | 0 <= i <= |text| ensures !OccursAt(text, end, i) {
      if OccursAt(text, end, i) { EndStartsNowhere(head, begin, beginRest, end, i); }
    }
  }

  /** ... because wherever it started, one of the two would hold it. */
  lemma EndStartsNowhere(head: string, begin: string, beginRest: string, end: string, i: nat)
    requires MarkerLike(begin) && MarkerLike(end) && Apart(begin, end)
    requires OccursAt(head + begin + beginRest, end, i)
    ensures Contains(head, end) || Contains(beginRest, end)
  {
    var text, a := head + begin + beginRest, |head| + |begin|;
    CharAt(text, end, i, 0);
    CharAt(text, end, i, 5);
    if i < |head| {
      assert text == head + (begin + beginRest);
      NoStraddle(head, begin + beginRest, end, i);
    } else if i >= a {
      OccursInside(head + begin, beginRest, "", end, i - a);
      assert text + "" == text;
      assert OccursAt(beginRest, end, i - a);
    }
  }

  lemma FoundBy(text: string, part: string, i: nat)
    requires OccursAt(text, part, i)
    ensures IndexOf(text, part).Some? && IndexOf(text, part).value <= i
  {
    assert 0 <= i <= |text|;
  }

  /** An end marker no later than the one put down is that one, or is in the rendered section. */
  lemma EndIsBelow(front: string, managed: string, end: string, tail: string, i: nat)
    requires MarkerLike(end) && !Contains(front, end) && i <= |front| + |managed| + 2
    requires OccursAt(front + "\n" + managed + "\n" + end + tail, end, i)
    ensures i > |front| && (i < |front| + |managed| + 2 ==> Contains(managed, end))
  {
    hide Contains;
    var text := front + "\n" + managed + "\n" + end + tail;
    var back := "\n" + end + tail;
    CharAt(text, end, i, 0);
    if i < |front| {
      assert text == front + ("\n" + managed + back);
      NoStraddle(front, "\n" + managed + back, end, i);
    } else if |front| < i < |front| + 1 + |managed| {
      var k := i - |front| - 1;
      assert text == (front + "\n") + (managed + back) + "";
      OccursInside(front + "\n", managed + back, "", end, k);
      NoStraddle(managed, back, end, k);
    }
  }

  lemma WrittenEnd(upper: string, end: string, tail: string)
    ensures IndexOf(upper + end + tail, end).Some? && IndexOf(upper + end + tail, end).value <= |upper|
  {
    OccursInside(upper, end, tail, end, 0);
    assert end[0..0 + |end|] == end;
    FoundBy(upper + end + tail, end, |upper|);
  }

  lemma ManagedEnd(front: string, managed: string, back: string, end: string)
    requires end != "" && Contains(managed, end)
    ensures IndexOf(front + managed + back, end).Some? && IndexOf(front + managed + back,
        end).value < |front| + |managed|
  {
    var k :| 0 <= k <= |managed| && OccursAt(managed, end, k);
    OccursInside(front, managed, back, end, k);
    FoundBy(front + managed + back, end, |front| + k);
  }

  /** The first end marker below `front` is the one put down, unless the rendered section holds one. */
  lemma FirstEnd(front: string, managed: string, end: string, tail: string)
    requires MarkerLike(end) && !Contains(front, end)
    ensures var at := IndexOf(front + "\n" + managed + "\n" + end + tail, end);
            var put := |front| + |managed| + 2;
            at.Some? && |front| < at.value <= put && (at.value == put <==> !Contains(managed, end))
  {
    hide Contains, OccursAt, IndexOf;
    var upper := front + "\n" + managed + "\n";
    WrittenEnd(upper, end, tail);
    EndIsBelow(front, managed, end, tail, IndexOf(upper + end + tail, end).value);
    if Contains(managed, end) { ManagedEnd(front + "\n", managed, "\n" + end + tail, end); }
    assert upper + end + tail == (front + "\n") + managed + ("\n" + end + tail);
  }

  /** Splitting undoes assembling: the head and the begin line always come back, and the
      owner's tail comes back exactly when the rendered section holds no end marker. */
  lemma SplitUndoesAssembly(head: string, beginRest: string, managed: string, tail: string)
    requires CleanHead(head) && '\n' !in beginRest && !Contains(beginRest, END_MARKER)
    ensures var parts := SplitAtMarkers(Assembled(head, beginRest, managed, tail));
            && parts.Some? && parts.value.head == head && parts.value.beginRest == beginRest
            && |parts.value.tail| >= |tail|
            && (parts.value.tail == tail <==> !Contains(managed, END_MARKER))
            && (Contains(managed, END_MARKER) ==> |parts.value.tail| > |tail|)
  {
    hide Contains, IndexOf, MarkerLike;
    MarkerShapes();
    var begin, end := BEGIN_MARKER, END_MARKER;
    var front, after := head + begin + beginRest, "\n" + managed + "\n" + end + tail;
    var text := Assembled(head, beginRest, managed, tail);
    assert text == head + begin + (beginRest + after) && text == front + after
        && text == front + "\n" + managed + "\n" + end + tail;
    FirstBegin(head, beginRest + after, begin);
    NoEndAbove(head, begin, beginRest, end);
    FirstEnd(front, managed, end, tail);
    LineEnds(head, begin, beginRest, after);
    Slices(head, begin, beginRest, managed, end, tail);
  }

  /** No marker crosses the newline between two texts. */
  lemma NoneAcross(front: string, a: string, m: string)
    requires MarkerLike(m) && !Contains(front, m) && !Contains(a, m)
    ensures !Contains(front + "\n" + a, m)
  {
    var text := front + "\n" + a;
    forall i | 0 <= i <= |text| ensures !OccursAt(text, m, i) {
      if OccursAt(text, m, i) { CrossesNowhere(front, a, m, i); }
    }
  }

  lemma CrossesNowhere(front: string, a: string, m: string, i: nat)
    requires MarkerLike(m) && OccursAt(front + "\n" + a, m, i)
    ensures Contains(front, m) || Contains(a, m)
  {
    var text := front + "\n" + a;
    CharAt(text, m, i, 0);
    if i < |front| {
      assert text == front + ("\n" + a);
      NoStraddle(front, "\n" + a, m, i);
    } else if i > |front| {
      assert text == (front + "\n") + a + "";
      OccursInside(front + "\n", a, "", m, i - |front| - 1);
      assert OccursAt(a, m, i - |front| - 1);
    }
  }

  /** A rendered section that does hold an end marker hands what follows it there, and the marker
      written after it, to the owner's tail. */
  lemma MarkerInsideIsTaken(head: string, beginRest: string, a: string, b: string, tail: string)
    requires CleanHead(head) && '\n' !in beginRest && !Contains(beginRest, END_MARKER) && !Contains(a, END_MARKER)
    ensures var parts := SplitAtMarkers(Assembled(head, beginRest, a + END_MARKER + b, tail));
            parts == Some(Parts(head, beginRest, b + "\n" + END_MARKER + tail))
  {
    hide Contains, IndexOf, MarkerLike, Assembled;
    MarkerShapes();
    var begin, end := BEGIN_MARKER, END_MARKER;
    var front, rest := head + begin + beginRest, b + "\n" + end + tail;
    var after := "\n" + a + end + rest;
    TakenText(head, beginRest, a, b, tail);
    FirstBegin(head, beginRest + after, begin);
    NoEndAbove(head, begin, beginRest, end);
    NoneAcross(front, a, end);
    FirstBegin(front + "\n" + a, rest, end);
    LineEnds(head, begin, beginRest, after);
    TakenSlices(head, begin, beginRest, a, end, rest);
  }

  lemma TakenText(head: string, beginRest: string, a: string, b: string, tail: string)
    ensures var text := Assembled(head, beginRest, a + END_MARKER + b, tail);
            var rest := b + "\n" + END_MARKER + tail;
            && text == head + BEGIN_MARKER + (beginRest + ("\n" + a + END_MARKER + rest))
            && text == head + BEGIN_MARKER + beginRest + ("\n" + a + END_MARKER + rest)
            && text == head + BEGIN_MARKER + beginRest + "\n" + a + END_MARKER + rest
  {
    Regrouped(head + BEGIN_MARKER, beginRest, a, END_MARKER, b, tail);
  }

  lemma Regrouped(front: string, beginRest: string, a: string, end: string, b: string, tail: string)
    ensures var text, rest := front + beginRest + "\n" + (a + end + b) + "\n" + end + tail, b + "\n" + end + tail;
            && text == front + (beginRest + ("\n" + a + end + rest))
            && text == front + beginRest + ("\n" + a + end + rest)
            && text == front + beginRest + "\n" + a + end + rest
  {
  }

  lemma TakenSlices(head: string, begin: string, beginRest: string, a: string, end: string, rest: string)
    ensures var text := head + begin + beginRest + "\n" + a + end + rest;
            && text[..|head|] == head
            && text[|head| + |begin|..|head| + |begin| + |beginRest|] == beginRest
            && text[|head| + |begin| + |beginRest| + 1 + |a| + |end|..] == rest
  {
  }

  lemma LineEnds(head: string, begin: string, beginRest: string, after: string)
    requires MarkerLike(begin) && '\n' !in beginRest && after != "" && after[0] == '\n'
    ensures IndexOfChar(head + begin + beginRest + after, '\n', |head|) == |head| + |begin| + |beginRest|
  {
    var text, lineEnd := head + begin + beginRest + after, |head| + |begin| + |beginRest|;
    assert text[lineEnd] == '\n';
    forall i | |head| <= i < lineEnd ensures text[i] != '\n' {
      if i < |head| + |begin| {
        assert text[i] == begin[i - |head|];
      } else {
        assert text[i] == beginRest[i - |head| - |begin|];
      }
    }
  }

  lemma Slices(head: string, begin: string, beginRest: string, managed: string, end: string, tail: string)
    ensures var text := head + begin + beginRest + "\n" + managed + "\n" + end + tail;
            && text[..|head|] == head
            && text[|head| + |begin|..|head| + |begin| + |beginRest|] == beginRest
            && text[|head| + |begin| + |beginRest| + |managed| + 2 + |end|..] == tail
  {
  }

  /** What is split off any file can be put back under the same promise. */
  lemma SplitHeadIsClean(text: string)
    ensures SplitAtMarkers(text).Some? ==> CleanHead(SplitAtMarkers(text).value.head)
  {
    hide Contains;
    var begin := IndexOf(text, BEGIN_MARKER);
    if begin.Some? {
      var n := begin.value;
      assert text[0..n] == text[..n];
      if Contains(text[..n], BEGIN_MARKER) { StretchContains(text, 0, n, BEGIN_MARKER); }
      if Contains(text[..n], END_MARKER) { StretchContains(text, 0, n, END_MARKER); }
    }
  }

  /** A begin line is fit to be written back exactly when it ends before the end marker:
      with both markers on one line of a longer text it would carry the end marker along. */
  lemma {:induction false} TemplateIsGood(text: string)
    requires SplitAtMarkers(text).Some?
    ensures var begin, end := IndexOf(text, BEGIN_MARKER).value, IndexOf(text, END_MARKER).value;
            var lineEnd := IndexOfChar(text, '\n', begin);
            GoodTemplate(SplitAtMarkers(text).value) <==> lineEnd < end || lineEnd == |text|
  {
    hide Contains, IndexOf;
    MarkerShapes();
    SplitHeadIsClean(text);
    var begin, end := IndexOf(text, BEGIN_MARKER).value, IndexOf(text, END_MARKER).value;
    EndClearsBegin(text, begin, end);
    var from, lineEnd := begin + |BEGIN_MARKER|, IndexOfChar(text, '\n', begin);
    CharAt(text, END_MARKER, end, 0);
    MarkerHasNoNewline(text, BEGIN_MARKER, begin);
    MarkerHasNoNewline(text, END_MARKER, end);
    var upTo := if lineEnd == |text| then end else lineEnd;
    if Contains(text[from..upTo], END_MARKER) { StretchContains(text, from, upTo, END_MARKER); }
    if end < lineEnd < |text| { StretchHolds(text, from, upTo, END_MARKER, end); }
  }

  lemma EndClearsBegin(text: string, begin: nat, end: nat)
    requires OccursAt(text, BEGIN_MARKER, begin) && OccursAt(text, END_MARKER, end) && begin <= end
    ensures begin + |BEGIN_MARKER| <= end
  {
    MarkerShapes();
    CharAt(text, BEGIN_MARKER, begin, 5);
    CharAt(text, END_MARKER, end, 5);
    CharAt(text, END_MARKER, end, 0);
    if begin < end < begin + |BEGIN_MARKER| { CharAt(text, BEGIN_MARKER, begin, end - begin); }
  }

  lemma MarkerHasNoNewline(text: string, m: string, at: nat)
    requires MarkerLike(m) && OccursAt(text, m, at)
    ensures forall i :: at <= i < at + |m| ==> text[i] != '\n'
  {
    forall i | at <= i < at + |m| ensures text[i] != '\n' { CharAt(text, m, at, i - at); }
  }

  lemma StretchHolds(text: string, from: nat, upTo: nat, part: string, at: nat)
    requires from <= at && at + |part| <= upTo <= |text| && OccursAt(text, part, at)
    ensures Contains(text[from..upTo], part)
  {
    assert text == text[..from] + text[from..upTo] + text[upTo..];
    OccursInside(text[..from], text[from..upTo], text[upTo..], part, at - from);
    assert OccursAt(text[from..upTo], part, at - from);
  }

  // --- any number of rewrites -----------------------------------------------------

  /** One rewrite of a file with the markers: the owner's tail is kept exactly when the
      rendered section holds no end marker, the head unless the version moved. */
  lemma RewriteKeeps(f: Files, template: Parts, managed: string)
    requires GoodTemplate(template) && f.agents.Some? && SplitAtMarkers(f.agents.value).Some?
    ensures var before, w := SplitAtMarkers(f.agents.value).value, WriteAgents(f, template, managed);
            && !w.leftAlone && w.files.agents.Some? && w.files.version == Some(NEST_VERSION)
            && var after := SplitAtMarkers(w.files.agents.value);
            && after.Some? && after.value.beginRest == template.beginRest
            && after.value.head == (if f.version == Some(NEST_VERSION) then before.head else template.head)
            && (after.value.tail == before.tail <==> !Contains(managed, END_MARKER))
  {
    hide SplitAtMarkers, Assembled, Contains;
    SplitHeadIsClean(f.agents.value);
    var parts := SplitAtMarkers(f.agents.value).value;
    SplitUndoesAssembly(if f.version == Some(NEST_VERSION) then parts.head else template.head, template.beginRest,
        managed, parts.tail);
  }

  /** The same inputs again: the version file is never written, and `AGENTS.md`, unless it is left
      alone, exactly when the rendered section holds an end marker, and then it is every time. */
  lemma SecondRewriteWritesNothing(f: Files, template: Parts, managed: string)
    requires GoodTemplate(template)
    ensures var w := WriteAgents(f, template, managed);
            var again := WriteAgents(w.files, template, managed);
            && !again.wroteVersion && again.leftAlone == w.leftAlone
            && (again.wroteAgents <==> !w.leftAlone && Contains(managed, END_MARKER))
            && (again.files == w.files <==> !again.wroteAgents)
  {
    hide SplitAtMarkers, Assembled, Contains;
    var parts := if f.agents.None? then None else SplitAtMarkers(f.agents.value);
    if f.agents.None? || parts.Some? {
      if parts.Some? { SplitHeadIsClean(f.agents.value); }
      var head := if parts.None? || f.version != Some(NEST_VERSION) then template.head else parts.value.head;
      var tail := if parts.None? then template.tail else parts.value.tail;
      SplitUndoesAssembly(head, template.beginRest, managed, tail);
      var written := Assembled(head, template.beginRest, managed, tail);
      LongerTail(head, template.beginRest, managed, tail, SplitAtMarkers(written).value.tail);
    }
  }

  lemma LongerTail(head: string, beginRest: string, managed: string, a: string, b: string)
    ensures |a| < |b| ==> Assembled(head, beginRest, managed, a) != Assembled(head, beginRest, managed, b)
  {
  }

  function WriteAll(f: Files, template: Parts, renders: seq<string>): Files {
    if renders == [] then f
    else WriteAgents(WriteAll(f, template, renders[..|renders| - 1]), template, renders[|renders| - 1]).files
  }

  /** Through any number of rewrites with changing rosters and guides: everything below the
      end marker is the owner's still, and everything above the begin marker too, unless
      the version had moved before the first of them. */
  lemma {:induction false} OwnersTextSurvives(f: Files, template: Parts, renders: seq<string>)
    requires GoodTemplate(template) && f.agents.Some? && SplitAtMarkers(f.agents.value).Some?
    requires forall i :: 0 <= i < |renders| ==> !Contains(renders[i], END_MARKER)
    ensures var before, g := SplitAtMarkers(f.agents.value).value, WriteAll(f, template, renders);
            && g.agents.Some? && (renders != [] ==> g.version == Some(NEST_VERSION))
            && var after := SplitAtMarkers(g.agents.value);
            && after.Some? && after.value.tail == before.tail
            && after.value.head == (if renders == [] || f.version == Some(NEST_VERSION) then before.head
                else template.head)
  {
    hide SplitAtMarkers, Contains, WriteAgents;
    if renders == [] {
    } else {
      var n := |renders| - 1;
      OwnersTextSurvives(f, template, renders[..n]);
      RewriteKeeps(WriteAll(f, template, renders[..n]), template, renders[n]);
    }
  }
}
