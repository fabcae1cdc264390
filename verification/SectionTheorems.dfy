/** What the section parser and the editors promise. */
module SectionTheorems {
  import opened Wrappers
  import opened Lines
  import opened Utf16
  import opened MarkdownSections

  // ----- the two hierarchies agree -----

  /** The headings along the parent chain, outermost first, and the heading itself. */
  function Chain(ms: seq<Mark>, i: nat): seq<Text>
    requires i < |ms|
  {
    var p := ParentOf(ms, i);
    (if p.Some? then Chain(ms, p.value) else []) + [ms[i].text]
  }

  function ChainBelow(ms: seq<Mark>, i: nat, level: nat): seq<Text>
    requires i <= |ms|
  {
    var p := Nearest(ms, i, level);
    if p.Some? then Chain(ms, p.value) else []
  }

  lemma {:induction false} DefinedPrefix(s: Stack, n: nat)
    requires n <= |s| && forall i :: n <= i < |s| ==> s[i].None?
    ensures Defined(s) == Defined(s[..n])
  {
    if n < |s| {
      DefinedPrefix(s[..|s| - 1], n);
      assert s[..|s| - 1][..n] == s[..n];
    } else {
      assert s[..n] == s;
    }
  }

  lemma CutBelow(before: Stack, top: Option<Text>, level: nat, n: nat)
    requires n < level
    ensures Resize(Resize(before, level - 1) + [top], n) == Resize(before, n)
  {}

  lemma CutAbove(before: Stack, text: Text, level: nat, n: nat)
    requires 1 <= level <= n
    ensures Defined(Resize(Resize(before, level - 1) + [Some(text)], n)) == Defined(Resize(before, level - 1)) + [text]
  {
    var stack := Resize(before, level - 1) + [Some(text)];
    DefinedPrefix(Resize(stack, n), level);
    assert Resize(stack, n)[..level] == stack;
    assert stack[..level - 1] == Resize(before, level - 1);
  }

  /** Cutting the stack to `n` entries leaves the chain of the nearest heading of level at most `n`. */
  lemma {:induction false} CutStack(ms: seq<Mark>, i: nat, n: nat)
    requires i <= |ms| && Levelled(ms)
    ensures Defined(Resize(StackAfter(ms[..i]), n)) == ChainBelow(ms, i, n + 1)
    decreases i
  {
    hide Resize, Defined;
    if i == 0 {
      EmptyStack(n);
    } else {
      var last, before := ms[i - 1], StackAfter(ms[..i - 1]);
      assert ms[..i][..i - 1] == ms[..i - 1];
      if n < last.level {
        CutStack(ms, i - 1, n);
        CutBelow(before, Some(last.text), last.level, n);
      } else {
        CutStack(ms, i - 1, last.level - 1);
        CutAbove(before, last.text, last.level, n);
      }
    }
  }

  lemma EmptyStack(n: nat)
    ensures Defined(Resize([], n)) == []
  {
    DefinedPrefix(Resize([], n), 0);
  }

  /**
   The defined entries of a heading path are the headings along the parent chain and the heading
   itself, even when levels are skipped.
   */
  lemma HierarchiesAgree(ms: seq<Mark>, i: nat)
    requires i < |ms| && Levelled(ms)
    ensures Defined(PathOf(ms, i)) == Chain(ms, i)
    ensures |PathOf(ms, i)| == ms[i].level && PathOf(ms, i)[ms[i].level - 1] == Some(ms[i].text)
  {
    var path := PathOf(ms, i);
    assert ms[..i + 1][..i] == ms[..i];
    CutStack(ms, i, ms[i].level - 1);
    assert path[..|path| - 1] == Resize(StackAfter(ms[..i]), ms[i].level - 1);
  }

  // ----- scanning -----

  lemma {:induction false} MarksConcat(a: seq<Text>, b: seq<Text>, first: nat, fence: Option<Fence>)
    ensures FenceAfter(a + b, fence) == FenceAfter(b, FenceAfter(a, fence))
    ensures Marks(a + b, first, fence) == Marks(a, first, fence) + Marks(b, first + |a|, FenceAfter(a, fence))
  {
    hide HeadMark, NextFence;
    if a == [] {
      assert a + b == b;
    } else {
      MarksConcat(a[1..], b, first + 1, NextFence(fence, a[0]));
      assert (a + b)[1..] == a[1..] + b;
    }
  }

  /** Same headings, every line number `delta` higher. */
  predicate LinesMoved(ms: seq<Mark>, ns: seq<Mark>, delta: int) {
    |ms| == |ns| && forall i :: 0 <= i < |ms| ==> MarkMoved(ms[i], ns[i], delta)
  }

  predicate MarkMoved(m: Mark, n: Mark, delta: int) {
    n.line == m.line + delta && n.level == m.level && n.text == m.text
  }

  lemma HeadMoved(line: Text, a: nat, b: nat, fence: Option<Fence>)
    ensures LinesMoved(HeadMark(line, a, fence), HeadMark(line, b, fence), b - a)
  {}

  lemma MovedConcat(a: seq<Mark>, b: seq<Mark>, c: seq<Mark>, d: seq<Mark>, delta: int)
    requires LinesMoved(a, c, delta) && LinesMoved(b, d, delta)
    ensures LinesMoved(a + b, c + d, delta)
  {}

  /** Scanning the same lines from two starting lines. */
  lemma {:induction false} MarksRenumbered(lines: seq<Text>, a: nat, b: nat, fence: Option<Fence>)
    ensures LinesMoved(Marks(lines, a, fence), Marks(lines, b, fence), b - a)
  {
    if lines != [] {
      var next := NextFence(fence, lines[0]);
      MarksRenumbered(lines[1..], a + 1, b + 1, next);
      HeadMoved(lines[0], a, b, fence);
      hide LinesMoved, HeadMark, NextFence;
      MovedConcat(HeadMark(lines[0], a, fence), Marks(lines[1..], a + 1, next),
                  HeadMark(lines[0], b, fence), Marks(lines[1..], b + 1, next), b - a);
    }
  }

  lemma OneLine(line: Text, first: nat, fence: Option<Fence>)
    ensures FenceAfter([line], fence) == NextFence(fence, line)
    ensures Marks([line], first, fence) == HeadMark(line, first, fence)
  {
    hide HeadMark, NextFence;
    MarksUnfold([line], first, fence);
    assert [line][1..] == [];
  }

  lemma NextOutside(line: Text)
    ensures NextFence(None, line) == FenceOf(line)
  {}

  lemma HeadIsSeen(line: Text, at: nat, fence: Option<Fence>)
    ensures HeadMark(line, at, fence) != [] ==> fence.None? && FenceOf(line).None? && NextFence(fence, line).None?
    ensures HeadMark(line, at, fence) != [] ==> HeadMark(line, at, fence)[0].line == at
  {
    hide FenceOf, HeadingOf;
  }

  /** A heading `m` is seen outside fences; the lines above and below it are scanned on their own. */
  predicate SeenIn(lines: seq<Text>, first: nat, fence: Option<Fence>, above: seq<Mark>, m: Mark, below: seq<Mark>) {
    var k := m.line - first;
    && 0 <= k < |lines| && FenceAfter(lines[..k], fence).None? && FenceOf(lines[k]).None?
    && HeadMark(lines[k], m.line, None) == [m]
    && Marks(lines[..k], first, fence) == above
    && Marks(lines[k + 1..], m.line + 1, None) == below
  }

  predicate SeenAt(lines: seq<Text>, first: nat, fence: Option<Fence>, ms: seq<Mark>, i: nat)
    requires i < |ms|
  {
    SeenIn(lines, first, fence, ms[..i], ms[i], ms[i + 1..])
  }

  lemma NothingScanned(first: nat, fence: Option<Fence>)
    ensures Marks([], first, fence) == [] && FenceAfter([], fence) == fence
  {}

  lemma FirstMarkAt(lines: seq<Text>, first: nat, fence: Option<Fence>)
    requires lines != []
    ensures HeadMark(lines[0], first, fence) != [] ==>
      Marks(lines, first, fence) != [] && SeenAt(lines, first, fence, Marks(lines, first, fence), 0)
  {
    hide HeadMark, FenceOf, NextFence, MarksIn, Marks, FenceAfter;
    if HeadMark(lines[0], first, fence) != [] {
      var ms := Marks(lines, first, fence);
      HeadIsSeen(lines[0], first, fence);
      HeadInRange(lines[0], first, fence);
      MarksUnfold(lines, first, fence);
      NothingScanned(first, fence);
      assert lines[..0] == [] && HeadMark(lines[0], first, fence) == [ms[0]];
    }
  }

  /** One more line above: what is seen above the heading grows by what that line shows. */
  lemma LineAbove(lines: seq<Text>, first: nat, fence: Option<Fence>, above: seq<Mark>, m: Mark, below: seq<Mark>)
    requires lines != []
    ensures SeenIn(lines[1..], first + 1, NextFence(fence, lines[0]), above, m, below) ==>
      SeenIn(lines, first, fence, HeadMark(lines[0], first, fence) + above, m, below)
  {
    hide HeadMark, NextFence, FenceOf, Marks, FenceAfter;
    if SeenIn(lines[1..], first + 1, NextFence(fence, lines[0]), above, m, below) {
      var k := m.line - first - 1;
      var higher := lines[..k + 1];
      MarksUnfold(higher, first, fence);
      assert higher[1..] == lines[1..][..k] && higher[0] == lines[0];
      assert lines[1..][k + 1..] == lines[k + 2..] && lines[1..][k] == lines[k + 1];
    }
  }

  lemma {:induction false} MarkAt(lines: seq<Text>, first: nat, fence: Option<Fence>, i: nat)
    ensures i < |Marks(lines, first, fence)| ==> SeenAt(lines, first, fence, Marks(lines, first, fence), i)
  {
    hide HeadMark, NextFence, Marks, SeenIn;
    NothingScanned(first, fence);
    var ms := Marks(lines, first, fence);
    if i < |ms| {
      HeadInRange(lines[0], first, fence);
      MarksUnfold(lines, first, fence);
      var next := NextFence(fence, lines[0]);
      var seen, rest := HeadMark(lines[0], first, fence), Marks(lines[1..], first + 1, next);
      if i < |seen| {
        FirstMarkAt(lines, first, fence);
      } else {
        var j := i - |seen|;
        MarkAt(lines[1..], first + 1, next, j);
        LineAbove(lines, first, fence, rest[..j], rest[j], rest[j + 1..]);
        assert ms[i] == rest[j] && ms[..i] == seen + rest[..j] && ms[i + 1..] == rest[j + 1..];
      }
    }
  }

  // ----- the sections tile the document -----

  predicate Within(r: seq<Section>, total: nat) {
    forall s <- r :: 1 <= s.lineStart <= s.lineEnd <= total
  }

  /** Sections follow one another without gap or overlap, from line `from` to line `to`. */
  predicate Tiles(r: seq<Section>, from: nat, to: nat) {
    && (r == [] ==> from == to + 1)
    && (r != [] ==> r[0].lineStart == from && r[|r| - 1].lineEnd == to)
    && (forall i :: 0 <= i < |r| ==> r[i].lineStart <= r[i].lineEnd)
    && (forall i :: 0 <= i < |r| - 1 ==> r[i + 1].lineStart == r[i].lineEnd + 1)
  }

  lemma SectionsShape(lines: seq<Text>, hash: Text -> string)
    ensures var ms, r := DocMarks(lines), SectionsOf(lines, hash); var pre := if HasPreamble(ms) then 1 else 0;
      && |r| == pre + |ms|
      && (pre == 1 ==> r[0] == Preamble(lines, ms, hash))
      && (forall i :: 0 <= i < |ms| ==> r[pre + i] == SectionAt(lines, ms, i, hash))
  {
    hide SectionAt, Preamble, DocMarks, Ordered, HeadingSections;
    var ms := DocMarks(lines);
    SecondPart(if HasPreamble(ms) then [Preamble(lines, ms, hash)] else [], HeadingSections(lines, ms, hash));
  }

  lemma SecondPart<T>(a: seq<T>, b: seq<T>)
    ensures forall i :: 0 <= i < |b| ==> (a + b)[|a| + i] == b[i]
  {}

  predicate Spans(s: Section, start: nat, end: nat) {
    s.lineStart == start && s.lineEnd == end
  }

  predicate SpansMark(r: seq<Section>, ms: seq<Mark>, total: nat, pre: nat, i: nat)
    requires Ordered(ms, total)
  {
    i < |ms| && pre + i < |r| && Spans(r[pre + i], ms[i].line, EndOf(ms, i, total))
  }

  lemma SectionSpans(lines: seq<Text>, hash: Text -> string)
    ensures var ms, r := DocMarks(lines), SectionsOf(lines, hash); var pre := if HasPreamble(ms) then 1 else 0;
      && |r| == pre + |ms|
      && (pre == 1 ==> Spans(r[0], 1, if ms == [] then |lines| else ms[0].line - 1))
      && (forall i: nat :: i < |ms| ==> SpansMark(r, ms, |lines|, pre, i))
  {
    SectionsShape(lines, hash);
    hide SectionsOf, IdOf, PathOf, ParentOf, Join, Marks, Units;
    var ms, r := DocMarks(lines), SectionsOf(lines, hash);
    var pre := if HasPreamble(ms) then 1 else 0;
    forall i: nat | i < |ms| ensures SpansMark(r, ms, |lines|, pre, i) {
      assert r[pre + i] == SectionAt(lines, ms, i, hash);
    }
  }

  lemma MarkSpan(ms: seq<Mark>, i: nat, total: nat)
    requires Ordered(ms, total) && i < |ms|
    ensures 1 <= ms[i].line <= EndOf(ms, i, total) <= total
    ensures i == |ms| - 1 ==> EndOf(ms, i, total) == total
    ensures i < |ms| - 1 ==> EndOf(ms, i, total) + 1 == ms[i + 1].line
  {
  }

  lemma SpansTile(r: seq<Section>, ms: seq<Mark>, total: nat, pre: nat)
    requires total >= 1 && Ordered(ms, total) && pre <= 1 && |r| == pre + |ms|
    requires pre == 1 ==> (ms == [] || ms[0].line > 1) && Spans(r[0], 1, if ms == [] then total else ms[0].line - 1)
    requires pre == 0 ==> ms != [] && ms[0].line == 1
    requires forall i: nat :: i < |ms| ==> SpansMark(r, ms, total, pre, i)
    ensures r != [] && Tiles(r, 1, total)
  {
    hide Ordered;
    forall i | 0 <= i < |r|
      ensures r[i].lineStart <= r[i].lineEnd && (i < |r| - 1 ==> r[i + 1].lineStart == r[i].lineEnd + 1)
      ensures (i == 0 ==> r[i].lineStart == 1) && (i == |r| - 1 ==> r[i].lineEnd == total)
    {
      if i >= pre {
        assert SpansMark(r, ms, total, pre, i - pre);
        MarkSpan(ms, i - pre, total);
      }
      if i < |r| - 1 { assert SpansMark(r, ms, total, pre, i + 1 - pre); }
    }
  }

  /** Every line belongs to exactly one section: the sections tile the document in order. */
  lemma SectionsTile(lines: seq<Text>, hash: Text -> string)
    requires lines != []
    ensures SectionsOf(lines, hash) != [] && Tiles(SectionsOf(lines, hash), 1, |lines|)
  {
    SectionSpans(lines, hash);
    hide SectionsOf, Marks, Tiles, Spans, EndOf, SpansMark;
    var ms := DocMarks(lines);
    SpansTile(SectionsOf(lines, hash), ms, |lines|, if HasPreamble(ms) then 1 else 0);
  }

  lemma {:induction false} TilesWithin(r: seq<Section>, from: nat, to: nat)
    requires Tiles(r, from, to) && from >= 1
    ensures Within(r, to) && from <= to + 1
  {
    if r != [] {
      var last := r[|r| - 1];
      if |r| > 1 {
        assert r[|r| - 2].lineEnd + 1 == last.lineStart;
        TilesWithin(r[..|r| - 1], from, r[|r| - 2].lineEnd);
        forall s | s in r ensures 1 <= s.lineStart <= s.lineEnd <= to { assert s in r[..|r| - 1] || s == last; }
      }
    }
  }

  /** The lines of the sections, one section after the other. */
  function Reassembled(lines: seq<Text>, r: seq<Section>): seq<Text>
    requires Within(r, |lines|)
  {
    if r == [] then []
    else
      var last := r[|r| - 1];
      assert last in r;
      Reassembled(lines, r[..|r| - 1]) + SectionLines(lines, last.lineStart, last.lineEnd)
  }

  lemma WithinFront(r: seq<Section>, total: nat)
    requires r != [] && Within(r, total)
    ensures var last := r[|r| - 1]; 1 <= last.lineStart <= last.lineEnd <= total && Within(r[..|r| - 1], total)
  {
    assert r[|r| - 1] in r;
  }

  lemma ReassembledStep(lines: seq<Text>, r: seq<Section>)
    requires r != [] && Within(r, |lines|)
    ensures var last := r[|r| - 1];
      && 1 <= last.lineStart <= last.lineEnd <= |lines| && Within(r[..|r| - 1], |lines|)
      && Reassembled(lines, r) == Reassembled(lines, r[..|r| - 1]) + lines[last.lineStart - 1..last.lineEnd]
  {
    WithinFront(r, |lines|);
  }

  lemma {:induction false} TilesJoin(lines: seq<Text>, r: seq<Section>, from: nat, to: nat)
    requires Tiles(r, from, to) && 1 <= from <= to + 1 && to <= |lines| && Within(r, |lines|)
    ensures Reassembled(lines, r) == lines[from - 1..to]
  {
    if r == [] {
      NoneTile(lines, from, to);
    } else {
      hide Tiles, Within, Reassembled;
      var last, rest := r[|r| - 1], r[..|r| - 1];
      ReassembledStep(lines, r);
      TilesFront(r, from, to);
      var mid: nat := last.lineStart - 1;
      TilesWithin(rest, from, mid);
      TilesJoin(lines, rest, from, mid);
      assert Reassembled(lines, r) == lines[from - 1..mid] + lines[mid..to];
      TwoSlices(lines, from - 1, mid, to);
    }
  }

  lemma TwoSlices<T>(s: seq<T>, i: nat, j: nat, k: nat)
    requires i <= j <= k <= |s|
    ensures s[i..j] + s[j..k] == s[i..k]
  {}

  lemma NoneTile(lines: seq<Text>, from: nat, to: nat)
    requires Tiles([], from, to) && 1 <= from && to <= |lines|
    ensures Reassembled(lines, []) == lines[from - 1..to] == []
  {}

  lemma TilesFront(r: seq<Section>, from: nat, to: nat)
    requires r != [] && Tiles(r, from, to) && from >= 1
    ensures var last := r[|r| - 1]; last.lineEnd == to && last.lineStart >= 1 && Tiles(r[..|r| - 1], from, last.lineStart - 1)
  {
    var rest := r[..|r| - 1];
    if rest != [] { assert rest[|rest| - 1].lineEnd + 1 == r[|r| - 1].lineStart; }
  }

  /** Putting the sections back together gives the document. */
  lemma SectionsReassemble(lines: seq<Text>, hash: Text -> string)
    requires lines != []
    ensures Within(SectionsOf(lines, hash), |lines|) && Reassembled(lines, SectionsOf(lines, hash)) == lines
  {
    hide SectionsOf;
    SectionsTile(lines, hash);
    TilesWithin(SectionsOf(lines, hash), 1, |lines|);
    TilesJoin(lines, SectionsOf(lines, hash), 1, |lines|);
    assert lines[0..|lines|] == lines;
  }
}
