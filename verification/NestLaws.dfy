/** Whose file `AGENTS.md` is: one without the markers is its owner's and is never written; any other holds
    the section last rendered, between them. */
module NestLaws {
  import opened Text
  import opened Nest

  // --- somebody's own file ------------------------------------------------------------

  /** Not a file of the office's: a marker is missing, or an end marker stands before any begin marker. */
  ghost predicate Unmarked(text: string) {
    || !Contains(text, BEGIN_MARKER) || !Contains(text, END_MARKER)
    || exists i :: 0 <= i <= |text| && EndsUnbegun(text, i)
  }

  predicate EndsUnbegun(text: string, i: nat) {
    OccursAt(text, END_MARKER, i) && forall j :: 0 <= j <= i ==> !OccursAt(text, BEGIN_MARKER, j)
  }

  lemma UnmarkedIsNotSplit(text: string)
    ensures Unmarked(text) <==> SplitAtMarkers(text).None?
  {
    hide Contains, OccursAt;
    var begin, end := IndexOf(text, BEGIN_MARKER), IndexOf(text, END_MARKER);
    if begin.Some? && end.Some? {
      if end.value < begin.value {
        MarkersDiffer(text, end.value);
        assert EndsUnbegun(text, end.value);
      }
      forall i | 0 <= i <= |text| && EndsUnbegun(text, i) ensures end.value < begin.value {
        assert end.value <= i;
        assert OccursAt(text, BEGIN_MARKER, begin.value);
      }
    }
  }

  lemma MarkersDiffer(text: string, i: nat)
    requires OccursAt(text, END_MARKER, i)
    ensures !OccursAt(text, BEGIN_MARKER, i)
  {
    CharAt(text, END_MARKER, i, 5);
    if OccursAt(text, BEGIN_MARKER, i) { CharAt(text, BEGIN_MARKER, i, 5); }
  }

  /** A file is left alone exactly if it is there and unmarked, and then neither file is touched; what is
      said to be written is what changed. */
  lemma OwnFileIsLeftAlone(f: Files, template: Parts, managed: string)
    ensures var w := WriteAgents(f, template, managed);
            && (w.leftAlone <==> f.agents.Some? && Unmarked(f.agents.value))
            && (w.leftAlone ==> w.files == f)
            && (!w.leftAlone ==> w.files.agents.Some? && w.files.version == Some(NEST_VERSION))
            && (w.wroteAgents <==> w.files.agents != f.agents) && (w.wroteVersion <==> w.files.version != f.version)
  {
    if f.agents.Some? { UnmarkedIsNotSplit(f.agents.value); }
    hide SplitAtMarkers, Assembled, Unmarked;
  }

  /** So it stays through any number of rewrites, whatever is rendered; and a file that is the office's, or
      was not there, is never left alone again. */
  lemma {:induction false} OwnFileStays(f: Files, template: Parts, renders: seq<string>, managed: string)
    requires GoodTemplate(template)
    ensures f.agents.Some? && Unmarked(f.agents.value) ==> WriteAll(f, template, renders) == f
    ensures f.agents.None? || !Unmarked(f.agents.value) ==>
              !WriteAgents(WriteAll(f, template, renders), template, managed).leftAlone
  {
    hide WriteAgents, Unmarked, GoodTemplate;
    OwnFileIsLeftAlone(WriteAll(f, template, renders), template, managed);
    if renders != [] {
      var n := |renders| - 1;
      var g := WriteAll(f, template, renders[..n]);
      OwnFileStays(f, template, renders[..n], renders[n]);
      OwnFileIsLeftAlone(g, template, renders[n]);
      if !WriteAgents(g, template, renders[n]).leftAlone { RewrittenIsMarked(g, template, renders[n]); }
    }
  }

  lemma RewrittenIsMarked(f: Files, template: Parts, managed: string)
    requires GoodTemplate(template) && !WriteAgents(f, template, managed).leftAlone
    ensures var w := WriteAgents(f, template, managed); w.files.agents.Some? && !Unmarked(w.files.agents.value)
  {
    hide SplitAtMarkers, Assembled, Unmarked, Contains;
    var parts := if f.agents.None? then None else SplitAtMarkers(f.agents.value);
    if parts.Some? { SplitHeadIsClean(f.agents.value); }
    var head := if parts.None? || f.version != Some(NEST_VERSION) then template.head else parts.value.head;
    var tail := if parts.None? then template.tail else parts.value.tail;
    SplitUndoesAssembly(head, template.beginRest, managed, tail);
    UnmarkedIsNotSplit(Assembled(head, template.beginRest, managed, tail));
  }

  // --- the section ------------------------------------------------------------------------

  /** What stands between the begin marker's line and the end marker. */
  function Section(text: string): Option<string> {
    match (IndexOf(text, BEGIN_MARKER), IndexOf(text, END_MARKER))
    case (Some(begin), Some(end)) =>
      var lineEnd := IndexOfChar(text, '\n', begin);
      if lineEnd < end then Some(text[lineEnd + 1..end]) else None
    case _ => None
  }

  lemma AssembledSection(head: string, beginRest: string, managed: string, tail: string)
    requires CleanHead(head) && '\n' !in beginRest && !Contains(beginRest, END_MARKER)
    ensures Section(Assembled(head, beginRest, managed, tail)) == Some(managed + "\n") <==>
              !Contains(managed, END_MARKER)
  {
    hide Contains, IndexOf, IndexOfChar, CleanHead, Assembled;
    MarkersFound(head, beginRest, managed, tail);
    var front, text := head + BEGIN_MARKER + beginRest, Assembled(head, beginRest, managed, tail);
    var at := IndexOf(text, END_MARKER).value;
    Between(front, managed, END_MARKER, tail);
    SectionUpTo(front, managed, text, at);
    assert Section(text) == Some(text[|front| + 1..at]);
  }

  /** Where the markers of an assembled file are, and where the begin marker's line ends. */
  lemma MarkersFound(head: string, beginRest: string, managed: string, tail: string)
    requires CleanHead(head) && '\n' !in beginRest && !Contains(beginRest, END_MARKER)
    ensures var text, front := Assembled(head, beginRest, managed, tail), head + BEGIN_MARKER + beginRest;
            var at := IndexOf(text, END_MARKER);
            && IndexOf(text, BEGIN_MARKER) == Some(|head|) && IndexOfChar(text, '\n', |head|) == |front|
            && at.Some? && |front| < at.value <= |front| + |managed| + 2 <= |text|
            && (at.value == |front| + |managed| + 2 <==> !Contains(managed, END_MARKER))
            && text == front + "\n" + managed + "\n" + END_MARKER + tail
  {
    hide Contains, IndexOf, MarkerLike;
    MarkerShapes();
    var begin, end := BEGIN_MARKER, END_MARKER;
    var front, after := head + begin + beginRest, "\n" + managed + "\n" + end + tail;
    var text := Assembled(head, beginRest, managed, tail);
    assert text == head + begin + (beginRest + after) && text == front + after
        && text == front + "\n" + managed + "\n" + end + tail;
    FirstBegin(head, beginRest + after, begin);
    NoEndAbove(head, begin, beginRest, end);
    FirstEnd(front, managed, end, tail);
    LineEnds(head, begin, beginRest, after);
  }

  lemma Between(front: string, managed: string, end: string, tail: string)
    ensures (front + "\n" + managed + "\n" + end + tail)[|front| + 1..|front| + |managed| + 2] == managed + "\n"
  {
  }

  lemma SectionUpTo(front: string, managed: string, text: string, at: nat)
    requires |front| < at <= |front| + |managed| + 2 <= |text|
    requires text[|front| + 1..|front| + |managed| + 2] == managed + "\n"
    ensures text[|front| + 1..at] == managed + "\n" <==> at == |front| + |managed| + 2
  {
    assert |text[|front| + 1..at]| == at - |front| - 1;
  }

  /** After a rewrite that was not left alone, the section between the markers is the one rendered, exactly
      if it holds no end marker; around it are the owner's texts, or the template's where there was no
      file. */
  lemma SectionIsWritten(f: Files, template: Parts, managed: string)
    requires GoodTemplate(template) && (f.agents.None? || !Unmarked(f.agents.value))
    ensures var w := WriteAgents(f, template, managed);
            && w.files.agents.Some?
            && (Section(w.files.agents.value) == Some(managed + "\n") <==> !Contains(managed, END_MARKER))
            && (f.agents.None? && !Contains(managed, END_MARKER) ==>
                  SplitAtMarkers(w.files.agents.value) == Some(template))
  {
    OwnFileIsLeftAlone(f, template, managed);
    if f.agents.Some? { UnmarkedIsNotSplit(f.agents.value); }
    hide SplitAtMarkers, Assembled, Unmarked, Contains, Section;
    var parts := if f.agents.None? then None else SplitAtMarkers(f.agents.value);
    if parts.Some? { SplitHeadIsClean(f.agents.value); }
    var head := if parts.None? || f.version != Some(NEST_VERSION) then template.head else parts.value.head;
    var tail := if parts.None? then template.tail else parts.value.tail;
    AssembledSection(head, template.beginRest, managed, tail);
    SplitUndoesAssembly(head, template.beginRest, managed, tail);
  }
}
