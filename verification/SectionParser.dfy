/** The section parser as it is written: one pass over the lines, one over the headings. */
module SectionParser {
  import opened Wrappers
  import opened Lines
  import opened Utf16
  import opened MarkdownSections
  import opened SectionTheorems

  // ----- first pass -----

  lemma OneMoreLine(lines: seq<Text>, i: nat)
    requires i < |lines|
    ensures Marks(lines[..i + 1], 1, None) == Marks(lines[..i], 1, None) + HeadMark(lines[i], i + 1, FenceAfter(lines[..i], None))
    ensures FenceAfter(lines[..i + 1], None) == NextFence(FenceAfter(lines[..i], None), lines[i])
  {
    hide HeadMark, NextFence;
    assert lines[..i + 1] == lines[..i] + [lines[i]];
    MarksConcat(lines[..i], [lines[i]], 1, None);
    OneLine(lines[i], i + 1, FenceAfter(lines[..i], None));
  }

  /** `paths` are the heading paths of `ms`, and `stack` is the last of them. */
  predicate PathsOk(ms: seq<Mark>, paths: seq<Stack>, stack: Stack) {
    && Levelled(ms) && |paths| == |ms| && stack == StackAfter(ms)
    && (forall i :: 0 <= i < |ms| ==> paths[i] == PathOf(ms, i))
  }

  lemma PathsGrow(ms: seq<Mark>, paths: seq<Stack>, stack: Stack, m: Mark)
    requires PathsOk(ms, paths, stack) && m.level >= 1
    ensures var next := Resize(stack, m.level - 1) + [Some(m.text)]; PathsOk(ms + [m], paths + [next], next)
  {
    var more := ms + [m];
    assert more[..|ms|] == ms && more[..|more|] == more;
    forall i | 0 <= i < |ms| ensures PathOf(more, i) == PathOf(ms, i) {
      assert more[..i + 1] == ms[..i + 1];
    }
  }

  method ParseHeadings(lines: seq<Text>) returns (headings: seq<Mark>, paths: seq<Stack>)
    ensures headings == DocMarks(lines)
    ensures |paths| == |headings| && forall i :: 0 <= i < |paths| ==> paths[i] == PathOf(headings, i)
  {
    hide HeadMark, NextFence, StackAfter, FenceOf, HeadingOf;
    headings, paths := [], [];
    var stack: Stack := [];
    var activeFence: Option<Fence> := None;
    EmptyPass(lines);
    for index := 0 to |lines|
      invariant headings == Marks(lines[..index], 1, None) && activeFence == FenceAfter(lines[..index], None)
      invariant PathsOk(headings, paths, stack)
    {
      var line := lines[index];
      OneMoreLine(lines, index);
      LineCases(line, index + 1, activeFence);
      var fence := FenceOf(line);
      if activeFence.Some? {
        if fence.Some? && fence.value.marker == activeFence.value.marker && fence.value.length >= activeFence.value.length {
          activeFence := None;
        }
      } else if fence.Some? {
        activeFence := fence;
      } else {
        var h := HeadingOf(line);
        if h.Some? {
          var m := Mark(index + 1, h.value.level, h.value.text);
          PathsGrow(headings, paths, stack, m);
          stack := Resize(stack, m.level - 1) + [Some(m.text)];
          headings, paths := headings + [m], paths + [stack];
        }
      }
    }
    assert lines[..|lines|] == lines;
  }

  lemma EmptyPass(lines: seq<Text>)
    ensures Marks(lines[..0], 1, None) == [] && FenceAfter(lines[..0], None) == None && StackAfter([]) == []
  {}

  predicate Closes(line: Text, active: Fence) {
    FenceOf(line).Some? && FenceOf(line).value.marker == active.marker && FenceOf(line).value.length >= active.length
  }

  lemma LineCases(line: Text, at: nat, active: Option<Fence>)
    ensures active.Some? ==> HeadMark(line, at, active) == []
    ensures active.Some? ==> NextFence(active, line) == if Closes(line, active.value) then None else active
    ensures active.None? ==> NextFence(active, line) == FenceOf(line)
    ensures active.None? && FenceOf(line).Some? ==> HeadMark(line, at, active) == []
    ensures active.None? && FenceOf(line).None? && HeadingOf(line).None? ==> HeadMark(line, at, active) == []
    ensures active.None? && FenceOf(line).None? && HeadingOf(line).Some? ==>
      HeadMark(line, at, active) == [Mark(at, HeadingOf(line).value.level, HeadingOf(line).value.text)] && HeadingOf(line).value.level >= 1
  {}

  // ----- the parent stack -----

  predicate Below(ms: seq<Mark>, open: seq<nat>, n: nat) {
    n <= |ms| && forall t :: 0 <= t < |open| ==> open[t] < n
  }

  /** Drops headings of level `level` or deeper from the end. */
  function Pop(ms: seq<Mark>, open: seq<nat>, level: nat): (r: seq<nat>)
    requires forall t :: 0 <= t < |open| ==> open[t] < |ms|
    ensures |r| <= |open| && r == open[..|r|]
  {
    if open != [] && ms[open[|open| - 1]].level >= level then Pop(ms, open[..|open| - 1], level) else open
  }

  /** The headings still open before heading `i`, outermost first. */
  function Open(ms: seq<Mark>, i: nat): (r: seq<nat>)
    requires i <= |ms|
    ensures Below(ms, r, i)
  {
    if i == 0 then [] else Pop(ms, Open(ms, i - 1), ms[i - 1].level) + [i - 1]
  }

  lemma {:induction false} PopPop(ms: seq<Mark>, open: seq<nat>, high: nat, low: nat)
    requires (forall t :: 0 <= t < |open| ==> open[t] < |ms|) && low <= high
    ensures Pop(ms, Pop(ms, open, high), low) == Pop(ms, open, low)
  {
    if open != [] && ms[open[|open| - 1]].level >= high { PopPop(ms, open[..|open| - 1], high, low); }
  }

  function LastOf(open: seq<nat>): Option<nat> {
    if open == [] then None else Some(open[|open| - 1])
  }

  /** The stack finds the nearest earlier heading of smaller level. */
  lemma {:induction false} PopIsNearest(ms: seq<Mark>, i: nat, level: nat)
    requires i <= |ms|
    ensures LastOf(Pop(ms, Open(ms, i), level)) == Nearest(ms, i, level)
  {
    if i > 0 && ms[i - 1].level >= level {
      var before := Pop(ms, Open(ms, i - 1), ms[i - 1].level);
      assert Open(ms, i)[..|Open(ms, i)| - 1] == before;
      PopPop(ms, Open(ms, i - 1), ms[i - 1].level, level);
      PopIsNearest(ms, i - 1, level);
    }
  }

  datatype Entry = Entry(level: nat, sectionId: Text)

  /** The parent stack holds the level and id of each open heading. */
  predicate Entries(ms: seq<Mark>, open: seq<nat>, stack: seq<Entry>)
    requires Levelled(ms) && forall t :: 0 <= t < |open| ==> open[t] < |ms|
  {
    |stack| == |open| && forall t :: 0 <= t < |open| ==> stack[t] == Entry(ms[open[t]].level, IdOf(ms, open[t]))
  }

  method PopParents(stack: seq<Entry>, level: nat, ghost ms: seq<Mark>, ghost open: seq<nat>) returns (r: seq<Entry>)
    requires Levelled(ms) && (forall t :: 0 <= t < |open| ==> open[t] < |ms|) && Entries(ms, open, stack)
    ensures Entries(ms, Pop(ms, open, level), r)
  {
    hide IdOf;
    r := stack;
    ghost var left: seq<nat> := open;
    while r != [] && r[|r| - 1].level >= level
      invariant (forall t :: 0 <= t < |left| ==> left[t] < |ms|) && Entries(ms, left, r)
      invariant Pop(ms, left, level) == Pop(ms, open, level)
      decreases |r|
    {
      r := r[..|r| - 1];
      left := left[..|left| - 1];
    }
  }

  // ----- second pass -----

  /** The map counts how often each base was used. */
  ghost predicate Counts(used: map<Text, nat>, ms: seq<Mark>, i: nat)
    requires i <= |ms| && Levelled(ms)
  {
    forall base :: (if base in used then used[base] else 0) == BaseCount(ms, i, base)
  }

  lemma CountsMore(used: map<Text, nat>, ms: seq<Mark>, i: nat, base: Text)
    requires i < |ms| && Levelled(ms) && Counts(used, ms, i) && base == Base(PathOf(ms, i))
    ensures Counts(used[base := BaseCount(ms, i, base) + 1], ms, i + 1)
    ensures (if base in used then used[base] else 0) == BaseCount(ms, i, base)
  {
    hide Base, PathOf, Levelled;
  }

  /** The heading itself goes on top of what is left on the stack. */
  lemma EntriesMore(ms: seq<Mark>, i: nat, stack: seq<Entry>)
    requires i < |ms| && Levelled(ms) && Entries(ms, Pop(ms, Open(ms, i), ms[i].level), stack)
    ensures Entries(ms, Open(ms, i + 1), stack + [Entry(ms[i].level, IdOf(ms, i))])
  {
    hide IdOf, Levelled, Pop;
    assert Open(ms, i + 1) == Pop(ms, Open(ms, i), ms[i].level) + [i];
  }

  /** What is left on the stack names the parent. */
  lemma ParentOnTop(ms: seq<Mark>, i: nat, stack: seq<Entry>)
    requires i < |ms| && Levelled(ms) && Entries(ms, Pop(ms, Open(ms, i), ms[i].level), stack)
    ensures var parent := ParentOf(ms, i);
      (if stack == [] then None else Some(stack[|stack| - 1].sectionId)) == if parent.Some? then Some(IdOf(ms, parent.value)) else None
  {
    hide IdOf, Levelled, Pop, Open, Nearest;
    PopIsNearest(ms, i, ms[i].level);
  }

  lemma IdIs(ms: seq<Mark>, i: nat)
    requires i < |ms| && Levelled(ms)
    ensures IdOf(ms, i) == UniqueSectionId(Base(PathOf(ms, i)), BaseCount(ms, i, Base(PathOf(ms, i))))
  {}

  method SectionFor(lines: seq<Text>, headings: seq<Mark>, paths: seq<Stack>, i: nat, used: map<Text, nat>, parents: seq<Entry>, hash: Text -> string)
    returns (s: Section, used': map<Text, nat>, parents': seq<Entry>)
    requires i < |headings| && Ordered(headings, |lines|) && |paths| == |headings| && paths[i] == PathOf(headings, i)
    requires Counts(used, headings, i) && Entries(headings, Open(headings, i), parents)
    ensures s == SectionAt(lines, headings, i, hash)
    ensures Counts(used', headings, i + 1) && Entries(headings, Open(headings, i + 1), parents')
  {
    hide Base, PathOf, UniqueSectionId, Counts, BaseCount, Join, Entries, Pop, Open, IdOf, Nearest;
    var heading := headings[i];
    CountsMore(used, headings, i, Base(paths[i]));
    parents' := PopParents(parents, heading.level, headings, Open(headings, i));
    EntriesMore(headings, i, parents');
    ParentOnTop(headings, i, parents');
    var parentSectionId := if parents' == [] then None else Some(parents'[|parents'| - 1].sectionId);
    var base := Base(paths[i]);
    var count := if base in used then used[base] else 0;
    used' := used[base := count + 1];
    var sectionId := UniqueSectionId(base, count);
    IdIs(headings, i);
    parents' := parents' + [Entry(heading.level, sectionId)];
    var lineEnd := if i + 1 < |headings| then headings[i + 1].line - 1 else |lines|;
    MarkSpan(headings, i, |lines|);
    var content := Join(lines[heading.line - 1..lineEnd], NEWLINE);
    s := Section(sectionId, parentSectionId, heading.text, paths[i], heading.level, heading.line, lineEnd, hash(content));
  }

  method HeadingPass(lines: seq<Text>, headings: seq<Mark>, paths: seq<Stack>, hash: Text -> string) returns (sections: seq<Section>)
    requires Ordered(headings, |lines|) && |paths| == |headings|
    requires forall i :: 0 <= i < |paths| ==> paths[i] == PathOf(headings, i)
    ensures |sections| == |headings| && forall i :: 0 <= i < |headings| ==> sections[i] == SectionAt(lines, headings, i, hash)
  {
    hide SectionAt, IdOf, PathOf, BaseCount;
    sections := [];
    var used: map<Text, nat> := map[];
    var parents: seq<Entry> := [];
    FirstHeading(headings);
    for i := 0 to |headings|
      invariant |sections| == i && forall k :: 0 <= k < i ==> sections[k] == SectionAt(lines, headings, k, hash)
      invariant Counts(used, headings, i) && Entries(headings, Open(headings, i), parents)
    {
      var s;
      s, used, parents := SectionFor(lines, headings, paths, i, used, parents, hash);
      sections := sections + [s];
    }
  }

  lemma FirstHeading(ms: seq<Mark>)
    requires Levelled(ms)
    ensures Counts(map[], ms, 0) && Entries(ms, Open(ms, 0), [])
  {}

  method ParseMarkdownSections(markdown: Text, hash: Text -> string) returns (sections: seq<Section>)
    ensures sections == MarkdownSections.ParseMarkdownSections(markdown, hash)
  {
    hide SectionAt, Preamble, IdOf, PathOf, Split;
    var lines := Split(markdown, NEWLINE);
    var headings, paths := ParseHeadings(lines);
    sections := if HasPreamble(headings) then [Preamble(lines, headings, hash)] else [];
    var rest := HeadingPass(lines, headings, paths, hash);
    assert rest == HeadingSections(lines, headings, hash);
    sections := sections + rest;
  }
}
