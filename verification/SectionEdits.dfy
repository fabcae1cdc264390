/**
 Editing one section is local.

 A section is replaced, below its heading line, by other lines.  The document parses to the same
 sections, ids, parents and paths, with the later line ranges shifted and the other hashes
 unchanged, exactly when the new lines are quiet: no heading is seen in them, and when more
 sections follow no fence is left open.
 */
module SectionEdits {
  import opened Wrappers
  import opened Lines
  import opened Utf16
  import opened MarkdownSections
  import opened SectionTheorems

  predicate Quiet(body: seq<Text>, more: bool) {
    Marks(body, 1, None) == [] && (more ==> FenceAfter(body, None).None?)
  }

  // ----- what the sections are made of -----

  /** Same levels and texts; the lines may differ. */
  predicate SameShape(ms: seq<Mark>, ns: seq<Mark>) {
    |ms| == |ns| && forall i :: 0 <= i < |ms| ==> ms[i].level == ns[i].level && ms[i].text == ns[i].text
  }

  lemma {:induction false} ShapeStack(ms: seq<Mark>, ns: seq<Mark>)
    requires SameShape(ms, ns) && Levelled(ms) && Levelled(ns)
    ensures StackAfter(ms) == StackAfter(ns)
  {
    if ms != [] { ShapeStack(ms[..|ms| - 1], ns[..|ns| - 1]); }
  }

  lemma {:induction false} ShapeNearest(ms: seq<Mark>, ns: seq<Mark>, i: nat, level: nat)
    requires SameShape(ms, ns) && i <= |ms|
    ensures Nearest(ms, i, level) == Nearest(ns, i, level)
  {
    if i > 0 { ShapeNearest(ms, ns, i - 1, level); }
  }

  lemma {:induction false} ShapeCount(ms: seq<Mark>, ns: seq<Mark>, i: nat, base: Text)
    requires SameShape(ms, ns) && Levelled(ms) && Levelled(ns) && i <= |ms|
    ensures BaseCount(ms, i, base) == BaseCount(ns, i, base)
  {
    hide Base, StackAfter;
    if i > 0 {
      ShapeCount(ms, ns, i - 1, base);
      assert ms[..i - 1 + 1] == ms[..i];
      ShapeStack(ms[..i], ns[..i]);
    }
  }

  lemma ShapeId(ms: seq<Mark>, ns: seq<Mark>, i: nat)
    requires SameShape(ms, ns) && Levelled(ms) && Levelled(ns) && i < |ms|
    ensures IdOf(ms, i) == IdOf(ns, i) && PathOf(ms, i) == PathOf(ns, i) && ParentOf(ms, i) == ParentOf(ns, i)
  {
    ShapeStack(ms[..i + 1], ns[..i + 1]);
    ShapeCount(ms, ns, i, Base(PathOf(ms, i)));
    ShapeNearest(ms, ns, i, ms[i].level);
  }

  /** Everything a section says but its line range and hash depends on the shape only. */
  lemma ShapeSection(lines: seq<Text>, others: seq<Text>, ms: seq<Mark>, ns: seq<Mark>, i: nat, hash: Text -> string)
    requires SameShape(ms, ns) && Ordered(ms, |lines|) && Ordered(ns, |others|) && i < |ms|
    ensures var s, t := SectionAt(lines, ms, i, hash), SectionAt(others, ns, i, hash);
      t == s.(lineStart := t.lineStart, lineEnd := t.lineEnd, contentHash := t.contentHash)
  {
    ShapeId(ms, ns, i);
    var p := ParentOf(ms, i);
    if p.Some? { ShapeId(ms, ns, p.value); }
  }

  // ----- the parts of a document around one section -----

  /** Where the replaceable part of a section begins: below the heading line, or at the top. */
  function BodyStart(s: Section): nat {
    if s.level == 0 then 0 else s.lineStart
  }

  /** `head + body + tail` with the marks of each part. */
  ghost predicate Around(lines: seq<Text>, head: nat, end: nat, j: nat) {
    var ms := DocMarks(lines);
    && head <= end <= |lines| && j <= |ms|
    && FenceAfter(lines[..head], None).None? && Marks(lines[..head], 1, None) == ms[..j]
    && Marks(lines[head..end], head + 1, None) == []
    && (j == |ms| ==> end == |lines|)
    && (j < |ms| ==>
         && end < |lines| && ms[j].line == end + 1
         && FenceAfter(lines[head..end], None).None? && Marks(lines[end..], end + 1, None) == ms[j..])
  }

  /** Cutting before the first heading: quiet lines, no open fence, and all the headings after. */
  lemma CutAtFirst(rest: seq<Text>, first: nat) returns (n: nat)
    requires Marks(rest, first, None) != []
    ensures n < |rest| && n == Marks(rest, first, None)[0].line - first
    ensures Marks(rest[..n], first, None) == [] && FenceAfter(rest[..n], None).None?
    ensures Marks(rest[n..], first + n, None) == Marks(rest, first, None)
  {
    hide HeadMark, FenceOf, NextFence;
    MarkAt(rest, first, None, 0);
    n := Marks(rest, first, None)[0].line - first;
    MarksConcat(rest[..n], rest[n..], first, None);
    assert rest[..n] + rest[n..] == rest;
  }

  /** The lines after a point outside fences, up to the next heading. */
  lemma UpToNext(lines: seq<Text>, head: nat, j: nat)
    requires head <= |lines| && j <= |DocMarks(lines)|
    requires FenceAfter(lines[..head], None).None? && Marks(lines[..head], 1, None) == DocMarks(lines)[..j]
    requires Marks(lines[head..], head + 1, None) == DocMarks(lines)[j..]
    ensures Around(lines, head, if j < |DocMarks(lines)| then DocMarks(lines)[j].line - 1 else |lines|, j)
  {
    hide Marks, FenceAfter;
    var ms, rest := DocMarks(lines), lines[head..];
    if j < |ms| {
      var n := CutAtFirst(rest, head + 1);
      assert ms[j..][0] == ms[j];
      assert rest[..n] == lines[head..head + n] && rest[n..] == lines[head + n..];
    } else {
      assert lines[head..|lines|] == rest;
    }
  }

  /** Just below a heading line: outside fences, with the headings split there. */
  lemma BelowHeading(lines: seq<Text>, i: nat)
    requires i < |DocMarks(lines)|
    ensures var ms := DocMarks(lines); var line := ms[i].line;
      && line <= |lines| && FenceAfter(lines[..line], None).None? && Marks(lines[..line], 1, None) == ms[..i + 1]
      && Marks(lines[line..], line + 1, None) == ms[i + 1..]
  {
    hide HeadMark, FenceOf, NextFence;
    var ms := DocMarks(lines);
    var line := ms[i].line;
    MarkAt(lines, 1, None, i);
    assert lines[..line] == lines[..line - 1] + [lines[line - 1]];
    MarksConcat(lines[..line - 1], [lines[line - 1]], 1, None);
    OneLine(lines[line - 1], line, None);
    NextOutside(lines[line - 1]);
    assert ms[..i] + [ms[i]] == ms[..i + 1];
  }

  /** For every section, its parts. */
  lemma AroundSection(lines: seq<Text>, hash: Text -> string, k: nat) returns (j: nat)
    requires lines != [] && k < |SectionsOf(lines, hash)|
    ensures var s, ms := SectionsOf(lines, hash)[k], DocMarks(lines);
      && BodyStart(s) <= s.lineEnd <= |lines| && Around(lines, BodyStart(s), s.lineEnd, j)
      && j + (if HasPreamble(ms) then 1 else 0) == k + 1
      && (s.level == 0 <==> (k == 0 && HasPreamble(ms)))
      && (s.level > 0 ==> j > 0 && ms[j - 1].line == s.lineStart)
  {
    SectionsShape(lines, hash);
    hide SectionsOf, IdOf, PathOf, ParentOf, Join, Marks, FenceAfter, Units, Around;
    var ms, s := DocMarks(lines), SectionsOf(lines, hash)[k];
    var pre := if HasPreamble(ms) then 1 else 0;
    if k < pre {
      j := 0;
      WholeDocument(lines);
      UpToNext(lines, 0, 0);
    } else {
      var i := k - pre;
      assert s == SectionAt(lines, ms, i, hash);
      j := i + 1;
      BelowHeading(lines, i);
      UpToNext(lines, ms[i].line, j);
    }
  }

  lemma WholeDocument(lines: seq<Text>)
    ensures FenceAfter(lines[..0], None).None? && Marks(lines[..0], 1, None) == DocMarks(lines)[..0]
    ensures Marks(lines[0..], 1, None) == DocMarks(lines)[0..]
  {
    assert lines[0..] == lines;
    assert DocMarks(lines)[0..] == DocMarks(lines);
  }

  // ----- the headings of the edited document -----

  function Edit(lines: seq<Text>, head: nat, end: nat, body: seq<Text>): seq<Text>
    requires head <= end <= |lines|
  {
    lines[..head] + body + lines[end..]
  }

  /** The headings up to the edit as before, the later ones shifted by `delta`. */
  predicate MovedMarks(ms: seq<Mark>, ns: seq<Mark>, j: nat, delta: int) {
    && SameShape(ms, ns) && j <= |ms|
    && (forall i :: 0 <= i < j ==> ns[i] == ms[i])
    && (forall i :: j <= i < |ms| ==> ns[i].line == ms[i].line + delta)
  }

  /** The new document's headings: those above, those in the new lines, those below. */
  lemma EditedMarks(lines: seq<Text>, head: nat, end: nat, j: nat, body: seq<Text>)
    requires Around(lines, head, end, j)
    ensures DocMarks(Edit(lines, head, end, body)) == DocMarks(lines)[..j] + Marks(body, head + 1, None)
      + Marks(lines[end..], head + |body| + 1, FenceAfter(body, None))
  {
    hide Marks, FenceAfter;
    MarksConcat(lines[..head] + body, lines[end..], 1, None);
    MarksConcat(lines[..head], body, 1, None);
  }

  lemma QuietMoves(lines: seq<Text>, head: nat, end: nat, j: nat, body: seq<Text>)
    requires Around(lines, head, end, j) && Quiet(body, end < |lines|)
    ensures MovedMarks(DocMarks(lines), DocMarks(Edit(lines, head, end, body)), j, |body| - (end - head))
  {
    hide Marks, FenceAfter;
    EditedMarks(lines, head, end, j, body);
    MarksRenumbered(body, 1, head + 1, None);
    assert Marks(body, head + 1, None) == [];
    MarksRenumbered(lines[end..], end + 1, head + |body| + 1, None);
    if end == |lines| { NoMarks(head + |body| + 1, FenceAfter(body, None)); }
    TailMoved(lines, head, end, j, body);
  }

  lemma TailMoved(lines: seq<Text>, head: nat, end: nat, j: nat, body: seq<Text>)
    requires Around(lines, head, end, j) && (FenceAfter(body, None).None? || end == |lines|)
    requires head <= end <= |lines| && j <= |DocMarks(lines)| && (end == |lines| ==> j == |DocMarks(lines)|)
    requires end == |lines| ==> Marks([], head + |body| + 1, FenceAfter(body, None)) == []
    requires LinesMoved(Marks(lines[end..], end + 1, None), Marks(lines[end..], head + |body| + 1, None), head + |body| - end)
    requires DocMarks(Edit(lines, head, end, body)) == DocMarks(lines)[..j] + Marks(lines[end..], head + |body| + 1, FenceAfter(body, None))
    ensures MovedMarks(DocMarks(lines), DocMarks(Edit(lines, head, end, body)), j, |body| - (end - head))
  {
    hide Marks, FenceAfter;
    var ms, ns := DocMarks(lines), DocMarks(Edit(lines, head, end, body));
    if end < |lines| {
      JoinMoved(ms, ns, j, Marks(lines[end..], head + |body| + 1, None), |body| - (end - head));
    } else {
      assert lines[end..] == [];
    }
  }

  lemma NoMarks(first: nat, fence: Option<Fence>)
    ensures Marks([], first, fence) == []
  {}

  lemma JoinMoved(ms: seq<Mark>, ns: seq<Mark>, j: nat, moved: seq<Mark>, delta: int)
    requires j <= |ms| && ns == ms[..j] + moved && LinesMoved(ms[j..], moved, delta)
    ensures MovedMarks(ms, ns, j, delta)
  {
    forall i | j <= i < |ms| ensures ns[i].line == ms[i].line + delta && ns[i].level == ms[i].level && ns[i].text == ms[i].text {
      assert ms[i] == ms[j..][i - j] && MarkMoved(ms[j..][i - j], moved[i - j], delta);
    }
  }

  lemma MovedIsQuiet(lines: seq<Text>, head: nat, end: nat, j: nat, body: seq<Text>)
    requires Around(lines, head, end, j)
    requires MovedMarks(DocMarks(lines), DocMarks(Edit(lines, head, end, body)), j, |body| - (end - head))
    ensures Quiet(body, end < |lines|)
  {
    hide Marks, FenceAfter, Around, Ordered;
    AroundLine(lines, head, end, j);
    var ms, ns, inner := DocMarks(lines), DocMarks(Edit(lines, head, end, body)), Marks(body, head + 1, None);
    var below := Marks(lines[end..], head + |body| + 1, FenceAfter(body, None));
    EditedMarks(lines, head, end, j, body);
    MarksRenumbered(body, 1, head + 1, None);
    MarksOrdered(body, head + 1, None);
    NothingInside(ms, ns, j, inner, below, head + 1, |body|, |body| - (end - head), end);
    if end < |lines| {
      MarkOnFirstLine(lines[end..], head + |body| + 1, FenceAfter(body, None), below[0]);
    }
  }

  /** The headings after the edit start below it, so none is inside. */
  lemma NothingInside(ms: seq<Mark>, ns: seq<Mark>, j: nat, inner: seq<Mark>, below: seq<Mark>, first: nat, count: nat, delta: int, end: nat)
    requires MovedMarks(ms, ns, j, delta) && ns == ms[..j] + inner + below && MarksIn(inner, first, count)
    requires j < |ms| ==> ms[j].line == end + 1 && first + count == end + 1 + delta
    ensures inner == []
    ensures j < |ms| ==> below != [] && below[0].line == first + count
  {
    if j < |ms| { assert ns[j].line == first + count; }
  }

  /** A heading on the very first line is seen only outside a fence. */
  lemma MarkOnFirstLine(lines: seq<Text>, first: nat, fence: Option<Fence>, m: Mark)
    requires Marks(lines, first, fence) != [] && Marks(lines, first, fence)[0] == m && m.line == first
    ensures fence.None?
  {
    hide HeadMark, FenceOf, NextFence, Marks, FenceAfter;
    NothingScanned(first, fence);
    MarksOrdered(lines[1..], first + 1, NextFence(fence, lines[0]));
    HeadWhenOutside(lines[0], first, fence);
    MarksUnfold(lines, first, fence);
  }

  lemma HeadWhenOutside(line: Text, at: nat, fence: Option<Fence>)
    ensures fence.Some? ==> HeadMark(line, at, fence) == []
  {}

  // ----- the sections of the edited document -----

  /** Section `k` has new content and `delta` more lines; nothing else changed but line numbers. */
  predicate LocallyEdited(r: seq<Section>, t: seq<Section>, k: nat, delta: int) {
    && |r| == |t| && k < |r|
    && (forall i :: 0 <= i < k ==> t[i] == r[i])
    && EditedSection(r[k], t[k], delta)
    && (forall i :: k < i < |r| ==> MovedSection(r[i], t[i], delta))
  }

  /** The content of a section wholly above or wholly below the edit. */
  lemma ContentKept(lines: seq<Text>, head: nat, end: nat, body: seq<Text>, a: nat, b: nat)
    requires head <= end <= |lines| && 1 <= a <= b + 1 && b <= |lines|
    ensures b <= head ==> b <= |Edit(lines, head, end, body)| && SectionLines(Edit(lines, head, end, body), a, b) == SectionLines(lines, a, b)
    ensures a > end ==> var delta := |body| - (end - head);
      b + delta <= |Edit(lines, head, end, body)| && 1 <= a + delta
      && SectionLines(Edit(lines, head, end, body), a + delta, b + delta) == SectionLines(lines, a, b)
  {
    if a > end {
      var delta := |body| - (end - head);
      var es := Edit(lines, head, end, body);
      assert es[a + delta - 1..b + delta] == lines[a - 1..b];
    }
  }

  lemma KeptHeadings(ms: seq<Mark>, ns: seq<Mark>, j: nat, delta: int, total: nat, later: nat)
    requires MovedMarks(ms, ns, j, delta) && Ordered(ms, total) && Ordered(ns, later) && later == total + delta
    ensures forall i: nat :: i < |ms| ==>
      && (i + 1 < j ==> EndOf(ns, i, later) == EndOf(ms, i, total))
      && (i + 1 >= j ==> EndOf(ns, i, later) == EndOf(ms, i, total) + delta)
  {
    hide Ordered;
  }

  /** Headings before the edit end above it; headings after it start below. */
  lemma Sides(lines: seq<Text>, head: nat, end: nat, j: nat, i: nat)
    requires Around(lines, head, end, j) && i < |DocMarks(lines)|
    requires j > 0 ==> head == DocMarks(lines)[j - 1].line
    ensures var ms := DocMarks(lines);
      && (i + 1 < j ==> EndOf(ms, i, |lines|) <= head)
      && (i >= j ==> ms[i].line > end)
  {
    hide Marks, FenceAfter;
    var ms := DocMarks(lines);
    if i + 1 < j - 1 { assert ms[i + 1].line < ms[j - 1].line; }
    if i > j { assert ms[j].line < ms[i].line; }
  }

  function Range(lines: seq<Text>, ms: seq<Mark>, i: nat): (seq<Text>)
    requires i < |ms| && Ordered(ms, |lines|)
  {
    MarkSpan(ms, i, |lines|);
    SectionLines(lines, ms[i].line, EndOf(ms, i, |lines|))
  }

  lemma RangeKept(lines: seq<Text>, es: seq<Text>, ms: seq<Mark>, ns: seq<Mark>, head: nat, end: nat, j: nat, body: seq<Text>, i: nat)
    requires head <= end <= |lines| && es == Edit(lines, head, end, body) && i < |ms|
    requires Ordered(ms, |lines|) && Ordered(ns, |es|) && MovedMarks(ms, ns, j, |body| - (end - head))
    requires if i + 1 < j then EndOf(ms, i, |lines|) <= head else i >= j && ms[i].line > end
    ensures Range(es, ns, i) == Range(lines, ms, i)
  {
    KeptHeadings(ms, ns, j, |body| - (end - head), |lines|, |es|);
    MarkSpan(ms, i, |lines|);
    hide Ordered, EndOf, SectionLines, Edit, SameShape;
    ContentKept(lines, head, end, body, ms[i].line, EndOf(ms, i, |lines|));
  }

  lemma SectionRange(lines: seq<Text>, ms: seq<Mark>, i: nat, hash: Text -> string)
    requires i < |ms| && Ordered(ms, |lines|)
    ensures var s := SectionAt(lines, ms, i, hash);
      s.lineStart == ms[i].line && s.lineEnd == EndOf(ms, i, |lines|) && s.contentHash == hash(Join(Range(lines, ms, i), NEWLINE))
  {}

  predicate EditedSection(s: Section, t: Section, delta: int) {
    t == s.(lineEnd := t.lineEnd, contentHash := t.contentHash) && t.lineEnd == s.lineEnd + delta
  }

  predicate MovedSection(s: Section, t: Section, delta: int) {
    && t == s.(lineStart := t.lineStart, lineEnd := t.lineEnd)
    && t.lineStart == s.lineStart + delta && t.lineEnd == s.lineEnd + delta
  }

  predicate Follows(s: Section, t: Section, i: nat, j: nat, delta: int) {
    if i + 1 < j then t == s else if i + 1 == j then EditedSection(s, t, delta) else MovedSection(s, t, delta)
  }

  lemma RangesFollow(lines: seq<Text>, es: seq<Text>, ms: seq<Mark>, ns: seq<Mark>, j: nat, delta: int, i: nat, hash: Text -> string)
    requires Ordered(ms, |lines|) && Ordered(ns, |es|) && i < |ms| && |es| == |lines| + delta
    requires MovedMarks(ms, ns, j, delta)
    requires i + 1 != j ==> Range(es, ns, i) == Range(lines, ms, i)
    ensures Follows(SectionAt(lines, ms, i, hash), SectionAt(es, ns, i, hash), i, j, delta)
  {
    ShapeSection(lines, es, ms, ns, i, hash);
    SectionRange(lines, ms, i, hash);
    SectionRange(es, ns, i, hash);
    KeptHeadings(ms, ns, j, delta, |lines|, |es|);
    hide SectionAt, Ordered, Range, EndOf;
  }

  /** Section for section, the edited document says the same. */
  lemma SectionFollows(lines: seq<Text>, head: nat, end: nat, j: nat, body: seq<Text>, i: nat, hash: Text -> string)
    requires Around(lines, head, end, j) && i < |DocMarks(lines)|
    requires j > 0 ==> head == DocMarks(lines)[j - 1].line
    requires MovedMarks(DocMarks(lines), DocMarks(Edit(lines, head, end, body)), j, |body| - (end - head))
    ensures var es := Edit(lines, head, end, body);
      Follows(SectionAt(lines, DocMarks(lines), i, hash), SectionAt(es, DocMarks(es), i, hash), i, j, |body| - (end - head))
  {
    hide SectionAt, DocMarks;
    var es := Edit(lines, head, end, body);
    var ms, ns := DocMarks(lines), DocMarks(es);
    Sides(lines, head, end, j, i);
    if i + 1 != j { RangeKept(lines, es, ms, ns, head, end, j, body, i); }
    RangesFollow(lines, es, ms, ns, j, |body| - (end - head), i, hash);
  }

  // ----- the theorems -----

  lemma PreambleKept(lines: seq<Text>, es: seq<Text>, ms: seq<Mark>, ns: seq<Mark>, head: nat, body: seq<Text>, j: nat, delta: int)
    requires Ordered(ms, |lines|) && Ordered(ns, |es|) && MovedMarks(ms, ns, j, delta)
    requires j == 0 ==> head == 0 && body != [] && (ms != [] ==> ms[0].line + delta == |body| + 1)
    requires j == 0 ==> HasPreamble(ms)
    ensures HasPreamble(ns) == HasPreamble(ms)
  {}

  function Pre(ms: seq<Mark>): nat {
    if HasPreamble(ms) then 1 else 0
  }

  lemma SectionIs(lines: seq<Text>, hash: Text -> string, n: nat)
    requires n < |SectionsOf(lines, hash)|
    ensures var ms := DocMarks(lines);
      && |SectionsOf(lines, hash)| == Pre(ms) + |ms|
      && SectionsOf(lines, hash)[n] == if n < Pre(ms) then Preamble(lines, ms, hash) else SectionAt(lines, ms, n - Pre(ms), hash)
  {
    hide SectionAt, Preamble, Marks;
  }

  /** Headings moved as they should: then so did the sections. */
  lemma MovedIsLocal(lines: seq<Text>, hash: Text -> string, head: nat, end: nat, j: nat, body: seq<Text>, k: nat)
    requires head <= end <= |lines| && j <= |DocMarks(lines)|
    requires Around(lines, head, end, j) && k < |SectionsOf(lines, hash)| && j + Pre(DocMarks(lines)) == k + 1
    requires j > 0 ==> head == DocMarks(lines)[j - 1].line
    requires j == 0 ==> head == 0 && body != []
    requires MovedMarks(DocMarks(lines), DocMarks(Edit(lines, head, end, body)), j, |body| - (end - head))
    ensures LocallyEdited(SectionsOf(lines, hash), SectionsOf(Edit(lines, head, end, body), hash), k, |body| - (end - head))
  {
    hide DocMarks, SectionsOf, SectionAt, Preamble, Around;
    var es, delta := Edit(lines, head, end, body), |body| - (end - head);
    var r, t, ms, ns := SectionsOf(lines, hash), SectionsOf(es, hash), DocMarks(lines), DocMarks(es);
    AroundLine(lines, head, end, j);
    PreambleKept(lines, es, ms, ns, head, body, j, delta);
    SectionIs(lines, hash, k);
    var pre := Pre(ms);
    SectionCount(es, hash);
    forall n | pre <= n < |r| ensures Follows(r[n], t[n], n - pre, j, delta) {
      SectionIs(lines, hash, n);
      SectionIs(es, hash, n);
      SectionFollows(lines, head, end, j, body, n - pre, hash);
    }
    if pre == 1 {
      SectionIs(lines, hash, 0);
      SectionIs(es, hash, 0);
      PreambleFollows(lines, es, ms, ns, head, end, body, j, hash);
    }
    FollowsIsLocal(r, t, pre, j, k, delta);
  }

  lemma SectionCount(lines: seq<Text>, hash: Text -> string)
    ensures |SectionsOf(lines, hash)| == Pre(DocMarks(lines)) + |DocMarks(lines)|
  {
    hide SectionAt, Preamble, Marks;
  }

  lemma AroundLine(lines: seq<Text>, head: nat, end: nat, j: nat)
    requires Around(lines, head, end, j)
    ensures var ms := DocMarks(lines);
      head <= end <= |lines| && j <= |ms| && (j < |ms| <==> end < |lines|) && (j < |ms| ==> ms[j].line == end + 1)
  {}

  predicate PreambleFollowed(s: Section, t: Section, j: nat, delta: int) {
    if j == 0 then EditedSection(s, t, delta) else t == s
  }

  lemma PreambleFollows(lines: seq<Text>, es: seq<Text>, ms: seq<Mark>, ns: seq<Mark>, head: nat, end: nat, body: seq<Text>, j: nat, hash: Text -> string)
    requires Ordered(ms, |lines|) && Ordered(ns, |es|) && head <= end <= |lines| && es == Edit(lines, head, end, body)
    requires MovedMarks(ms, ns, j, |body| - (end - head)) && HasPreamble(ms) && HasPreamble(ns)
    requires j == 0 ==> end == if ms == [] then |lines| else ms[0].line - 1
    requires j > 0 ==> head == ms[j - 1].line
    ensures PreambleFollowed(Preamble(lines, ms, hash), Preamble(es, ns, hash), j, |body| - (end - head))
  {
    if j > 0 {
      assert ms[0].line <= head by { if j > 1 { assert ms[0].line < ms[j - 1].line; } }
      ContentKept(lines, head, end, body, 1, ms[0].line - 1);
    }
  }

  lemma FollowsIsLocal(r: seq<Section>, t: seq<Section>, pre: nat, j: nat, k: nat, delta: int)
    requires |r| == |t| && pre <= 1 && pre <= |r| && k < |r| && k + 1 == j + pre
    requires forall n :: pre <= n < |r| ==> Follows(r[n], t[n], n - pre, j, delta)
    requires pre == 1 ==> PreambleFollowed(r[0], t[0], j, delta)
    ensures LocallyEdited(r, t, k, delta)
  {
    forall i | 0 <= i < |r|
      ensures i < k ==> t[i] == r[i]
      ensures i == k ==> EditedSection(r[i], t[i], delta)
      ensures i > k ==> MovedSection(r[i], t[i], delta)
    {
      if i >= pre { assert Follows(r[i], t[i], i - pre, j, delta); }
    }
  }

  /** The levels tell whether there is a preamble, and the sections tell the headings. */
  lemma LocalIsMoved(lines: seq<Text>, es: seq<Text>, hash: Text -> string, j: nat, k: nat, delta: int)
    requires k < |SectionsOf(lines, hash)| && j + Pre(DocMarks(lines)) == k + 1
    requires LocallyEdited(SectionsOf(lines, hash), SectionsOf(es, hash), k, delta)
    ensures MovedMarks(DocMarks(lines), DocMarks(es), j, delta)
  {
    hide DocMarks, SectionsOf, IdOf, PathOf, ParentOf, Join, Units;
    var r, t, ms, ns := SectionsOf(lines, hash), SectionsOf(es, hash), DocMarks(lines), DocMarks(es);
    SectionCount(lines, hash);
    SectionCount(es, hash);
    SectionIs(lines, hash, 0);
    SectionIs(es, hash, 0);
    assert r[0].level == 0 <==> Pre(ms) == 1;
    assert t[0].level == r[0].level;
    assert Pre(ns) == Pre(ms);
    forall i | 0 <= i < |ms|
      ensures ms[i].level == ns[i].level && ms[i].text == ns[i].text
      ensures i < j ==> ns[i].line == ms[i].line
      ensures i >= j ==> ns[i].line == ms[i].line + delta
    {
      SectionIs(lines, hash, Pre(ms) + i);
      SectionIs(es, hash, Pre(ms) + i);
    }
  }

  /**
   Locality, exactly: section `k` may be given other lines below its heading (or, for the preamble,
   any lines) and everything else stays put if and only if those lines are quiet.
   */
  lemma EditIsLocal(lines: seq<Text>, hash: Text -> string, k: nat, body: seq<Text>)
    requires lines != [] && k < |SectionsOf(lines, hash)|
    requires SectionsOf(lines, hash)[k].level == 0 ==> body != []
    ensures var r := SectionsOf(lines, hash); var head, end := BodyStart(r[k]), r[k].lineEnd;
      && head <= end <= |lines|
      && (LocallyEdited(r, SectionsOf(Edit(lines, head, end, body), hash), k, |body| - (end - head)) <==> Quiet(body, end < |lines|))
  {
    hide DocMarks, Quiet, SectionsOf, SectionAt, LocallyEdited, MovedMarks, Around, Edit;
    var r := SectionsOf(lines, hash);
    var head, end := BodyStart(r[k]), r[k].lineEnd;
    var j := AroundSection(lines, hash, k);
    if Quiet(body, end < |lines|) {
      AroundLine(lines, head, end, j);
      QuietMoves(lines, head, end, j, body);
      MovedIsLocal(lines, hash, head, end, j, body, k);
    }
    if LocallyEdited(r, SectionsOf(Edit(lines, head, end, body), hash), k, |body| - (end - head)) {
      LocalIsMoved(lines, Edit(lines, head, end, body), hash, j, k, |body| - (end - head));
      MovedIsQuiet(lines, head, end, j, body);
    }
  }

  // ----- the editors -----

  lemma SplicedLines(markdown: Text, start: nat, end: nat, insert: seq<Text>)
    requires 1 <= start <= end + 1 && end <= |Split(markdown, NEWLINE)| && insert != [] && Parts(insert, NEWLINE)
    ensures var lines := Splice(Split(markdown, NEWLINE), start, end, insert); Split(Join(lines, NEWLINE), NEWLINE) == lines
  {
    var lines := Split(markdown, NEWLINE);
    SplitParts(markdown, NEWLINE);
    forall p | p in Splice(lines, start, end, insert) ensures NEWLINE !in p {
      assert p in lines[..start - 1] || p in insert || p in lines[end..];
    }
    SplitJoin(Splice(lines, start, end, insert), NEWLINE);
  }

  /** Replacing a section by text that keeps its heading line: local exactly when the rest is quiet. */
  lemma ReplaceIsLocal(markdown: Text, hash: Text -> string, k: nat, replacement: Text)
    requires var r := ParseMarkdownSections(markdown, hash);
      && k < |r|
      && (r[k].level > 0 ==>
           && 1 <= r[k].lineStart <= |Split(markdown, NEWLINE)|
           && Split(replacement, NEWLINE)[0] == Split(markdown, NEWLINE)[r[k].lineStart - 1])
    ensures var r, lines, rest := ParseMarkdownSections(markdown, hash), Split(markdown, NEWLINE), Split(replacement, NEWLINE);
      var body := if r[k].level == 0 then rest else rest[1..];
      && 1 <= r[k].lineStart <= r[k].lineEnd <= |lines|
      && (LocallyEdited(r, ParseMarkdownSections(ReplaceSectionMarkdown(markdown, r[k].lineStart, r[k].lineEnd, replacement), hash), k,
            |rest| - (r[k].lineEnd - r[k].lineStart + 1))
          <==> Quiet(body, r[k].lineEnd < |lines|))
  {
    hide SectionsOf, Quiet, LocallyEdited, Splice, Split, Join, Edit;
    var lines, rest := Split(markdown, NEWLINE), Split(replacement, NEWLINE);
    var s := SectionsOf(lines, hash)[k];
    SectionRangeOk(lines, hash, k);
    SplitParts(replacement, NEWLINE);
    SplicedLines(markdown, s.lineStart, s.lineEnd, rest);
    var body := if s.level == 0 then rest else rest[1..];
    EditIsLocal(lines, hash, k, body);
    SpliceIsEdit(lines, s, rest);
  }

  lemma SectionRangeOk(lines: seq<Text>, hash: Text -> string, k: nat)
    requires lines != [] && k < |SectionsOf(lines, hash)|
    ensures var s := SectionsOf(lines, hash)[k]; 1 <= s.lineStart <= s.lineEnd <= |lines| && (s.level == 0 ==> s.lineStart == 1)
  {
    hide SectionsOf, IdOf, PathOf, ParentOf, Join, Units, Tiles;
    SectionsTile(lines, hash);
    TilesWithin(SectionsOf(lines, hash), 1, |lines|);
    SectionIs(lines, hash, k);
    var ms := DocMarks(lines);
    assert SectionsOf(lines, hash)[k] in SectionsOf(lines, hash);
  }

  /** What was put in is what is read back from its lines, and putting back what was read changes nothing. */
  lemma ReplaceReads(markdown: Text, start: nat, end: nat, replacement: Text)
    requires 1 <= start <= end + 1 && end <= |Split(markdown, NEWLINE)|
    ensures var r, last := ReplaceSectionMarkdown(markdown, start, end, replacement), start - 1 + |Split(replacement, NEWLINE)|;
      last <= |Split(r, NEWLINE)| && SectionMarkdown(r, start, last) == replacement
    ensures start <= end ==> ReplaceSectionMarkdown(markdown, start, end, SectionMarkdown(markdown, start, end)) == markdown
  {
    hide Split, Join;
    var lines, insert := Split(markdown, NEWLINE), Split(replacement, NEWLINE);
    SplitParts(replacement, NEWLINE);
    SplicedLines(markdown, start, end, insert);
    JoinSplit(replacement, NEWLINE);
    assert SectionLines(Splice(lines, start, end, insert), start, start - 1 + |insert|) == insert;
    if start <= end {
      var here := SectionLines(lines, start, end);
      SplitParts(markdown, NEWLINE);
      assert forall p <- here :: p in lines;
      SplitJoin(here, NEWLINE);
      assert Splice(lines, start, end, here) == lines;
      JoinSplit(markdown, NEWLINE);
    }
  }

  lemma SpliceIsEdit(lines: seq<Text>, s: Section, rest: seq<Text>)
    requires 1 <= s.lineStart <= s.lineEnd <= |lines| && rest != [] && (s.level == 0 ==> s.lineStart == 1)
    requires s.level > 0 ==> rest[0] == lines[s.lineStart - 1]
    ensures Splice(lines, s.lineStart, s.lineEnd, rest)
      == Edit(lines, BodyStart(s), s.lineEnd, if s.level == 0 then rest else rest[1..])
  {
    if s.level > 0 {
      assert rest == [rest[0]] + rest[1..];
      assert lines[..s.lineStart] == lines[..s.lineStart - 1] + [rest[0]];
    }
  }

  /** No line is a heading or a fence. */
  predicate PlainLines(lines: seq<Text>) {
    forall l <- lines :: HeadingOf(l).None? && FenceOf(l).None?
  }

  lemma {:induction false} PlainScan(lines: seq<Text>, first: nat, fence: Option<Fence>)
    requires PlainLines(lines)
    ensures Marks(lines, first, fence) == [] && FenceAfter(lines, fence) == fence
  {
    if lines != [] {
      assert lines[0] in lines;
      PlainScan(lines[1..], first + 1, fence);
    }
  }

  lemma EmptyLineIsPlain()
    ensures HeadingOf([]).None? && FenceOf([]).None?
  {}

  /** A section with plain lines added at its end is still quiet. */
  lemma LongerBodyIsQuiet(lines: seq<Text>, hash: Text -> string, k: nat, insert: seq<Text>)
    requires lines != [] && k < |SectionsOf(lines, hash)| && PlainLines(insert)
    ensures var s := SectionsOf(lines, hash)[k];
      BodyStart(s) <= s.lineEnd <= |lines| && Quiet(lines[BodyStart(s)..s.lineEnd] + insert, s.lineEnd < |lines|)
  {
    hide SectionsOf, Marks, FenceAfter, PlainLines;
    OldBodyIsQuiet(lines, hash, k);
    var s := SectionsOf(lines, hash)[k];
    var body := lines[BodyStart(s)..s.lineEnd];
    MarksConcat(body, insert, 1, None);
    PlainScan(insert, 1 + |body|, FenceAfter(body, None));
  }

  lemma InsertionIsPlain(addition: Text)
    requires PlainLines(Split(TrimEnd(addition, IsSpace), NEWLINE))
    ensures PlainLines(Insertion(addition))
  {
    EmptyLineIsPlain();
  }

  lemma InsertionHasNoBreak(addition: Text)
    ensures Parts(Insertion(addition), NEWLINE)
  {
    SplitParts(TrimEnd(addition, IsSpace), NEWLINE);
  }

  /** Appending is local exactly when the section's lines with the new ones after them are quiet. */
  lemma AppendIsLocalIff(markdown: Text, hash: Text -> string, k: nat, addition: Text)
    requires k < |ParseMarkdownSections(markdown, hash)|
    ensures var r, lines := ParseMarkdownSections(markdown, hash), Split(markdown, NEWLINE);
      && BodyStart(r[k]) <= r[k].lineEnd <= |lines|
      && (LocallyEdited(r, ParseMarkdownSections(AppendToSectionMarkdown(markdown, r[k].lineEnd, addition), hash), k, |Insertion(addition)|)
          <==> Quiet(lines[BodyStart(r[k])..r[k].lineEnd] + Insertion(addition), r[k].lineEnd < |lines|))
  {
    hide SectionsOf, Splice, LocallyEdited, Quiet, Edit, Split, Join, TrimEnd;
    var lines, insert := Split(markdown, NEWLINE), Insertion(addition);
    var s := SectionsOf(lines, hash)[k];
    SectionRangeOk(lines, hash, k);
    InsertionHasNoBreak(addition);
    SplicedLines(markdown, s.lineEnd + 1, s.lineEnd, insert);
    EditIsLocal(lines, hash, k, lines[BodyStart(s)..s.lineEnd] + insert);
    AppendIsEdit(lines, BodyStart(s), s.lineEnd, insert);
  }

  /** So appending plain text to a section, even inside a fence it leaves open, is local. */
  lemma AppendIsLocal(markdown: Text, hash: Text -> string, k: nat, addition: Text)
    requires k < |ParseMarkdownSections(markdown, hash)|
    ensures var r := ParseMarkdownSections(markdown, hash);
      && r[k].lineEnd <= |Split(markdown, NEWLINE)|
      && (PlainLines(Split(TrimEnd(addition, IsSpace), NEWLINE)) ==>
            LocallyEdited(r, ParseMarkdownSections(AppendToSectionMarkdown(markdown, r[k].lineEnd, addition), hash), k, |Insertion(addition)|))
  {
    hide SectionsOf, Splice, LocallyEdited, PlainLines, Quiet, Edit, Split, Join, TrimEnd;
    AppendIsLocalIff(markdown, hash, k, addition);
    if PlainLines(Split(TrimEnd(addition, IsSpace), NEWLINE)) {
      InsertionIsPlain(addition);
      LongerBodyIsQuiet(Split(markdown, NEWLINE), hash, k, Insertion(addition));
    }
  }

  lemma AppendIsEdit(lines: seq<Text>, head: nat, end: nat, insert: seq<Text>)
    requires head <= end <= |lines|
    ensures Splice(lines, end + 1, end, insert) == Edit(lines, head, end, lines[head..end] + insert)
  {
    assert lines[..end] == lines[..head] + lines[head..end];
  }

  /** What a section holds already is quiet. */
  lemma OldBodyIsQuiet(lines: seq<Text>, hash: Text -> string, k: nat)
    requires lines != [] && k < |SectionsOf(lines, hash)|
    ensures var s := SectionsOf(lines, hash)[k];
      BodyStart(s) <= s.lineEnd <= |lines| && Quiet(lines[BodyStart(s)..s.lineEnd], s.lineEnd < |lines|)
  {
    hide SectionsOf, Marks, FenceAfter;
    var s := SectionsOf(lines, hash)[k];
    var j := AroundSection(lines, hash, k);
    MarksRenumbered(lines[BodyStart(s)..s.lineEnd], 1, BodyStart(s) + 1, None);
  }
}
