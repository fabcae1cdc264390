/** Which lines are fences and which are headings, unit by unit; and what a fenced block hides. */
module SectionFences {
  import opened Wrappers
  import opened Lines
  import opened Utf16
  import opened MarkdownSections
  import opened SectionTheorems

  // ----- fence lines -----

  /** After `i` spaces the line has `n` times the unit `c`. */
  predicate RunAt(line: Text, i: nat, c: Unit, n: nat) {
    && i + n <= |line|
    && (forall k :: 0 <= k < i ==> line[k] == 32)
    && (forall k :: i <= k < i + n ==> line[k] == c)
  }

  /** At most three spaces, then at least `n` times the unit `c`, then anything. */
  predicate HoldsRun(line: Text, c: Unit, n: nat) {
    RunAt(line, 0, c, n) || RunAt(line, 1, c, n) || RunAt(line, 2, c, n) || RunAt(line, 3, c, n)
  }

  /** A backtick or a tilde. */
  predicate IsMarker(c: Unit) {
    c == 96 || c == 126
  }

  lemma {:induction false} RunIsLongest(line: Text, i: nat, c: Unit)
    requires i <= |line|
    ensures var n := RunLength(line, i, c);
      (forall k :: i <= k < i + n ==> line[k] == c) && (i + n < |line| ==> line[i + n] != c)
    decreases |line| - i
  {
    if i < |line| && line[i] == c { RunIsLongest(line, i + 1, c); }
  }

  lemma {:induction false} RunEnds(line: Text, i: nat, c: Unit, n: nat)
    requires i + n <= |line| && (forall k :: i <= k < i + n ==> line[k] == c)
    ensures RunLength(line, i, c) >= n
    ensures i + n == |line| || line[i + n] != c ==> RunLength(line, i, c) == n
    decreases n
  {
    if n > 0 { RunEnds(line, i + 1, c, n - 1); }
  }

  /** A run that starts after the spaces starts after all of them. */
  lemma RunStart(line: Text, i: nat, c: Unit, n: nat)
    requires RunAt(line, i, c, n) && c != 32 && n >= 1
    ensures RunLength(line, 0, SPACE) == i && RunLength(line, i, c) >= n
  {
    RunEnds(line, 0, SPACE, i);
    RunEnds(line, i, c, n);
  }

  lemma HeldRun(line: Text, c: Unit, n: nat)
    requires HoldsRun(line, c, n) && IsMarker(c) && n >= 3
    ensures FenceOf(line).Some? && FenceOf(line).value.marker == c && FenceOf(line).value.length >= n
  {
    var i := if RunAt(line, 0, c, n) then 0 else if RunAt(line, 1, c, n) then 1 else if RunAt(line, 2, c, n) then 2 else 3;
    RunStart(line, i, c, n);
    hide RunLength;
    assert line[i] == c;
  }

  lemma FenceHeld(line: Text)
    requires FenceOf(line).Some?
    ensures var f := FenceOf(line).value; IsMarker(f.marker) && f.length >= 3 && HoldsRun(line, f.marker, f.length)
  {
    var i := RunLength(line, 0, SPACE);
    RunIsLongest(line, 0, SPACE);
    RunIsLongest(line, i, line[i]);
    hide RunLength;
    assert RunAt(line, i, line[i], FenceOf(line).value.length);
  }

  /** A line is a fence of `n` or more markers exactly when it holds such a run. */
  lemma FenceIff(line: Text, c: Unit, n: nat)
    requires IsMarker(c) && n >= 3
    ensures HoldsRun(line, c, n) <==> FenceOf(line).Some? && FenceOf(line).value.marker == c && FenceOf(line).value.length >= n
  {
    if HoldsRun(line, c, n) {
      HeldRun(line, c, n);
    } else if FenceOf(line).Some? && FenceOf(line).value.marker == c && FenceOf(line).value.length >= n {
      FenceHeld(line);
      Shorter(line, c, FenceOf(line).value.length, n);
    }
  }

  lemma Shorter(line: Text, c: Unit, n: nat, m: nat)
    requires HoldsRun(line, c, n) && m <= n
    ensures HoldsRun(line, c, m)
  {}

  // ----- opening and closing -----

  /** Outside a fence a line opens one exactly when it has three markers of a kind after at most three spaces. */
  lemma OpensIff(line: Text)
    ensures NextFence(None, line).Some? <==> HoldsRun(line, 96, 3) || HoldsRun(line, 126, 3)
  {
    FenceIff(line, 96, 3);
    FenceIff(line, 126, 3);
    if FenceOf(line).Some? { FenceHeld(line); }
  }

  /** The fence that a line with exactly `n` markers opens. */
  lemma OpensWith(line: Text, c: Unit, n: nat)
    requires IsMarker(c) && n >= 3 && HoldsRun(line, c, n) && !HoldsRun(line, c, n + 1)
    ensures NextFence(None, line) == Some(Fence(c, n))
  {
    FenceIff(line, c, n);
    FenceIff(line, c, n + 1);
  }

  /** Inside a fence of `n` markers a line closes it exactly when it has as many of the same marker; a shorter run or the other marker does not. */
  lemma ClosesIff(line: Text, c: Unit, n: nat)
    requires IsMarker(c) && n >= 3
    ensures NextFence(Some(Fence(c, n)), line) == if HoldsRun(line, c, n) then None else Some(Fence(c, n))
  {
    FenceIff(line, c, n);
  }

  lemma {:induction false} InsideIsSilent(body: seq<Text>, first: nat, c: Unit, n: nat)
    requires IsMarker(c) && n >= 3 && forall line <- body :: !HoldsRun(line, c, n)
    ensures Marks(body, first, Some(Fence(c, n))) == [] && FenceAfter(body, Some(Fence(c, n))) == Some(Fence(c, n))
    decreases |body|
  {
    hide HoldsRun, NextFence, FenceOf, HeadingOf;
    if body != [] {
      assert body[0] in body;
      ClosesIff(body[0], c, n);
      InsideIsSilent(body[1..], first + 1, c, n);
      MarksUnfold(body, first, Some(Fence(c, n)));
    }
  }

  lemma FenceLineIsSilent(line: Text, at: nat, fence: Option<Fence>)
    requires fence.Some? || HoldsRun(line, 96, 3) || HoldsRun(line, 126, 3)
    ensures HeadMark(line, at, fence) == []
  {
    OpensIff(line);
    hide FenceOf, HeadingOf, HoldsRun;
  }

  /** An opening fence with no closing one hides everything below it. */
  lemma UnclosedIsSilent(open: Text, body: seq<Text>, first: nat, c: Unit, n: nat)
    requires IsMarker(c) && n >= 3 && HoldsRun(open, c, n) && !HoldsRun(open, c, n + 1)
    requires forall line <- body :: !HoldsRun(line, c, n)
    ensures Marks([open] + body, first, None) == [] && FenceAfter([open] + body, None) == Some(Fence(c, n))
  {
    Shorter(open, c, n, 3);
    FenceLineIsSilent(open, first, None);
    OpensWith(open, c, n);
    InsideIsSilent(body, first + 1, c, n);
    hide HoldsRun, NextFence, HeadMark, Marks, FenceAfter;
    OneLine(open, first, None);
    MarksConcat([open], body, first, None);
  }

  /**
   A fenced block: a line with `n` markers, lines none of which has as many, and a line that has. No
   heading is read from it, and the line after it is outside.
   */
  lemma BlockIsSilent(open: Text, body: seq<Text>, close: Text, first: nat, c: Unit, n: nat)
    requires IsMarker(c) && n >= 3 && HoldsRun(open, c, n) && !HoldsRun(open, c, n + 1)
    requires (forall line <- body :: !HoldsRun(line, c, n)) && HoldsRun(close, c, n)
    ensures Marks([open] + body + [close], first, None) == [] && FenceAfter([open] + body + [close], None) == None
  {
    UnclosedIsSilent(open, body, first, c, n);
    ClosesIff(close, c, n);
    FenceLineIsSilent(close, first + 1 + |body|, Some(Fence(c, n)));
    hide HoldsRun, NextFence, HeadMark, Marks, FenceAfter;
    OneLine(close, first + 1 + |body|, Some(Fence(c, n)));
    MarksConcat([open] + body, [close], first, None);
  }

  /** A block between plain text hides itself and nothing else: the headings are those above it and those below it. */
  lemma BlockIsSkipped(above: seq<Text>, open: Text, body: seq<Text>, close: Text, below: seq<Text>, c: Unit, n: nat)
    requires IsMarker(c) && n >= 3 && HoldsRun(open, c, n) && !HoldsRun(open, c, n + 1)
    requires (forall line <- body :: !HoldsRun(line, c, n)) && HoldsRun(close, c, n)
    requires forall line <- above :: !HoldsRun(line, 96, 3) && !HoldsRun(line, 126, 3)
    ensures DocMarks(above + ([open] + body + [close]) + below) == Marks(above, 1, None) + Marks(below, |above| + |body| + 3, None)
  {
    hide *;
    BlockIsSilent(open, body, close, |above| + 1, c, n);
    PlainIsOutside(above);
    BetweenBlocks(above, [open] + body + [close], below);
    DocMarksAre(above + ([open] + body + [close]) + below);
  }

  lemma DocMarksAre(lines: seq<Text>)
    ensures DocMarks(lines) == Marks(lines, 1, None)
  {
    hide Marks, Ordered;
  }

  lemma BetweenBlocks(above: seq<Text>, block: seq<Text>, below: seq<Text>)
    requires FenceAfter(above, None) == None && FenceAfter(block, None) == None && Marks(block, |above| + 1, None) == []
    ensures Marks(above + block + below, 1, None) == Marks(above, 1, None) + Marks(below, |above| + |block| + 1, None)
  {
    hide Marks, FenceAfter;
    MarksConcat(above + block, below, 1, None);
    MarksConcat(above, block, 1, None);
  }

  lemma {:induction false} PlainIsOutside(lines: seq<Text>)
    requires forall line <- lines :: !HoldsRun(line, 96, 3) && !HoldsRun(line, 126, 3)
    ensures FenceAfter(lines, None) == None
  {
    hide HoldsRun, FenceOf, HeadingOf;
    if lines != [] {
      assert lines[0] in lines;
      OpensIff(lines[0]);
      PlainIsOutside(lines[1..]);
      MarksUnfold(lines, 1, None);
    }
  }

  // ----- heading lines -----

  /** `level` hashes, a space or tab, and at least one more unit, with no line terminator among those. */
  predicate IsHeading(line: Text, level: nat) {
    && 1 <= level <= 6 && level + 2 <= |line|
    && (forall k :: 0 <= k < level ==> line[k] == 35)
    && (line[level] == 32 || line[level] == 9)
    && (forall k :: level + 1 <= k < |line| ==> line[k] != 13 && line[k] != 10 && line[k] != 0x2028 && line[k] != 0x2029)
  }

  lemma {:induction false} BlanksAre(line: Text, i: nat)
    requires i <= |line|
    ensures var n := BlankRun(line, i);
      (forall k :: i <= k < i + n ==> IsBlank(line[k])) && (i + n < |line| ==> !IsBlank(line[i + n]))
    decreases |line| - i
  {
    if i < |line| && IsBlank(line[i]) { BlanksAre(line, i + 1); }
  }

  /** A line is a heading of a level exactly when it looks like one. */
  lemma HeadingIff(line: Text, level: nat)
    ensures IsHeading(line, level) <==> HeadingOf(line).Some? && HeadingOf(line).value.level == level
  {
    RunIsLongest(line, 0, HASH);
    var n := RunLength(line, 0, HASH);
    BlanksAre(line, n);
    var start := n + BlankRun(line, n);
    if IsHeading(line, level) { RunEnds(line, 0, HASH, level); }
    hide RunLength, BlankRun, LazyEnd, Trim;
  }

  /** Outside fences, a heading is seen on a line exactly when the line is a heading and no fence. */
  lemma SeenIff(line: Text, at: nat)
    ensures HeadMark(line, at, None) != [] <==> (exists level :: IsHeading(line, level))
  {
    if HeadingOf(line).Some? { HeadingIff(line, HeadingOf(line).value.level); }
    forall level | IsHeading(line, level) ensures HeadMark(line, at, None) != [] {
      HeadingIff(line, level);
      HeadingIsNoFence(line, level);
    }
  }

  lemma HeadingIsNoFence(line: Text, level: nat)
    requires IsHeading(line, level)
    ensures FenceOf(line) == None
  {
    assert line[0] == 35;
    assert RunLength(line, 0, SPACE) == 0;
  }

  /** From `i` on there is nothing but blanks, or blanks, closing hashes and blanks. */
  ghost predicate Closes(line: Text, i: nat) {
    exists b: nat, e: nat :: Closed(line, i, b, e)
  }

  predicate Closed(line: Text, i: nat, b: nat, e: nat) {
    && i <= b <= e <= |line|
    && (forall k :: i <= k < b ==> line[k] == 32 || line[k] == 9)
    && (forall k :: b <= k < e ==> line[k] == 35)
    && (forall k :: e <= k < |line| ==> line[k] == 32 || line[k] == 9)
    && (b == |line| || i < b < e)
  }

  lemma {:induction false} BlanksEnd(line: Text, i: nat, n: nat)
    requires i + n <= |line| && (forall k :: i <= k < i + n ==> IsBlank(line[k])) && (i + n == |line| || !IsBlank(line[i + n]))
    ensures BlankRun(line, i) == n
    decreases n
  {
    if n > 0 { BlanksEnd(line, i + 1, n - 1); }
  }

  lemma ClosesIsClosing(line: Text, i: nat)
    requires i <= |line|
    ensures Closes(line, i) <==> IsClosing(line, i)
  {
    if IsClosing(line, i) {
      var b := i + BlankRun(line, i);
      var e := b + RunLength(line, b, HASH);
      BlanksAre(line, i);
      RunIsLongest(line, b, HASH);
      BlanksAre(line, e);
      hide BlankRun, RunLength;
      assert Closed(line, i, b, e);
    }
    if Closes(line, i) {
      var b: nat, e: nat :| Closed(line, i, b, e);
      BlanksEnd(line, i, b - i);
      RunEnds(line, b, HASH, e - b);
      BlanksEnd(line, e, |line| - e);
      hide BlankRun, RunLength;
    }
  }

  lemma {:induction false} LazyIsShortest(line: Text, i: nat, end: nat)
    requires i <= end <= |line| && Closes(line, end) && forall k :: i <= k < end ==> !Closes(line, k)
    ensures LazyEnd(line, i) == end
    decreases end - i
  {
    ClosesIsClosing(line, i);
    hide Closes, IsClosing;
    if i < end { LazyIsShortest(line, i + 1, end); }
  }

  /** The hashes and the blanks of a heading line are all of them. */
  lemma HeadingStart(line: Text, level: nat, start: nat)
    requires IsHeading(line, level) && level < start <= |line|
    requires forall k :: level <= k < start ==> line[k] == 32 || line[k] == 9
    requires start < |line| ==> line[start] != 32 && line[start] != 9
    ensures RunLength(line, 0, HASH) == level && BlankRun(line, level) == start - level
    ensures !exists i :: start <= i < |line| && IsTerminatorCode(line[i])
  {
    RunEnds(line, 0, HASH, level);
    BlanksEnd(line, level, start - level);
  }

  /**
   What a heading line reads as: the text after the blanks, at least one unit of it, up to the first
   place from which only closing hashes follow.
   */
  lemma HeadingReadsAs(line: Text, level: nat, start: nat, end: nat)
    requires IsHeading(line, level) && level < start < end <= |line|
    requires (forall k :: level <= k < start ==> line[k] == 32 || line[k] == 9) && line[start] != 32 && line[start] != 9
    requires Closes(line, end) && forall k :: start < k < end ==> !Closes(line, k)
    ensures HeadingOf(line) == Some(HeadingLine(level, Trim(line[start..end], IsSpace)))
  {
    hide RunLength, BlankRun, LazyEnd, Trim, Closes, IsTerminatorCode;
    HeadingStart(line, level, start);
    LazyIsShortest(line, start + 1, end);
  }

  /** With nothing but blanks after the hashes the heading is empty. */
  lemma BlankHeadingIsEmpty(line: Text, level: nat)
    requires IsHeading(line, level) && forall k :: level <= k < |line| ==> line[k] == 32 || line[k] == 9
    ensures HeadingOf(line) == Some(HeadingLine(level, []))
  {
    hide RunLength, BlankRun, LazyEnd, Trim, IsTerminatorCode;
    HeadingStart(line, level, |line|);
  }

  // ----- what a section says about its lines -----

  /** The nearest section above with a smaller level, if there is one, is named as the parent. */
  ghost predicate NamesParent(r: seq<Section>, i: nat)
    requires i < |r|
  {
    if exists j :: 0 <= j < i && 0 < r[j].level < r[i].level then
      exists j :: 0 <= j < i && 0 < r[j].level < r[i].level && r[i].parentSectionId == Some(r[j].sectionId)
        && forall k :: j < k < i ==> r[k].level >= r[i].level
    else r[i].parentSectionId == None
  }

  /** The section carries the hash of its own lines and starts with its heading line. */
  predicate SaysItsLines(s: Section, lines: seq<Text>, hash: Text -> string) {
    && 1 <= s.lineStart <= s.lineEnd <= |lines|
    && s.contentHash == hash(Join(lines[s.lineStart - 1..s.lineEnd], NEWLINE))
    && (s.level > 0 ==> HeadingOf(lines[s.lineStart - 1]) == Some(HeadingLine(s.level, s.heading)))
  }

  /** Every section says what its lines are and names its parent; only a preamble, on top, has no heading. */
  lemma SectionSays(lines: seq<Text>, hash: Text -> string, i: nat)
    requires lines != [] && i < |SectionsOf(lines, hash)|
    ensures var r := SectionsOf(lines, hash);
      && SaysItsLines(r[i], lines, hash) && NamesParent(r, i)
      && (r[i].level == 0 ==> i == 0 && r[i].sectionId == r[i].heading == Units("_preamble") && r[i].headingPath == [])
  {
    hide SaysItsLines, NamesParent, SectionAt, Preamble, SectionsOf, DocMarks, Ordered, Units;
    var ms, r := DocMarks(lines), SectionsOf(lines, hash);
    var pre := if HasPreamble(ms) then 1 else 0;
    SectionsShape(lines, hash);
    LevelsAndIds(lines, hash);
    if i >= pre {
      assert r[pre + (i - pre)] == SectionAt(lines, ms, i - pre, hash);
      HeadingSays(lines, i - pre, hash);
      ParentIsNamed(lines, ms, r, pre, i - pre, hash);
    } else {
      PreambleSays(lines, hash);
      NoneAbove(r);
    }
  }

  lemma LevelsAndIds(lines: seq<Text>, hash: Text -> string)
    ensures HasPreamble(DocMarks(lines)) ==> var p := Preamble(lines, DocMarks(lines), hash);
      p.level == 0 && p.parentSectionId == None && p.sectionId == p.heading == Units("_preamble") && p.headingPath == []
    ensures forall i :: 0 <= i < |DocMarks(lines)| ==> SectionAt(lines, DocMarks(lines), i, hash).level > 0
  {
    hide Join, Marks, IdOf, PathOf, ParentOf, Units;
  }

  lemma NoneAbove(r: seq<Section>)
    requires r != [] && r[0].parentSectionId == None
    ensures NamesParent(r, 0)
  {}

  lemma PreambleSays(lines: seq<Text>, hash: Text -> string)
    requires lines != [] && HasPreamble(DocMarks(lines))
    ensures SaysItsLines(Preamble(lines, DocMarks(lines), hash), lines, hash)
  {
    hide Join, Marks, Units;
  }

  lemma HeadingSays(lines: seq<Text>, i: nat, hash: Text -> string)
    requires i < |DocMarks(lines)|
    ensures SaysItsLines(SectionAt(lines, DocMarks(lines), i, hash), lines, hash) && DocMarks(lines)[i].level > 0
  {
    hide Join, Marks, IdOf, PathOf, HeadingOf, ParentOf, DocMarks;
    StartsWithHeading(lines, i);
    MarkSpan(DocMarks(lines), i, |lines|);
  }

  lemma StartsWithHeading(lines: seq<Text>, i: nat)
    requires i < |DocMarks(lines)|
    ensures var m := DocMarks(lines)[i]; HeadingOf(lines[m.line - 1]) == Some(HeadingLine(m.level, m.text))
  {
    DocMarksAre(lines);
    MarkAt(lines, 1, None, i);
    hide FenceOf, FenceAfter, Marks, HeadingOf, Ordered, DocMarks;
    assert SeenAt(lines, 1, None, Marks(lines, 1, None), i);
  }

  lemma ParentIsNamed(lines: seq<Text>, ms: seq<Mark>, r: seq<Section>, pre: nat, i: nat, hash: Text -> string)
    requires Ordered(ms, |lines|) && pre <= 1 && |r| == pre + |ms| && i < |ms| && (pre == 1 ==> r[0].level == 0)
    requires forall k :: 0 <= k < |ms| ==> r[pre + k] == SectionAt(lines, ms, k, hash)
    ensures NamesParent(r, pre + i)
  {
    hide IdOf, PathOf, Join, ParentOf;
    forall k | 0 <= k < |ms| ensures r[pre + k].level == ms[k].level && r[pre + k].sectionId == IdOf(ms, k) {
      assert r[pre + k] == SectionAt(lines, ms, k, hash);
    }
    assert r[pre + i] == SectionAt(lines, ms, i, hash);
    hide SectionAt;
    NearestParent(ms, r, pre, i);
  }

  /** The sections after the preamble are those of the headings, and this one's parent is its heading's. */
  predicate Lists(r: seq<Section>, ms: seq<Mark>, pre: nat, i: nat)
    requires Levelled(ms) && pre <= 1 && |r| == pre + |ms| && i < |ms|
  {
    && (pre == 1 ==> r[0].level == 0)
    && (forall k :: 0 <= k < |ms| ==> r[pre + k].level == ms[k].level && r[pre + k].sectionId == IdOf(ms, k))
    && r[pre + i].parentSectionId == if ParentOf(ms, i).Some? then Some(IdOf(ms, ParentOf(ms, i).value)) else None
  }

  lemma NearestParent(ms: seq<Mark>, r: seq<Section>, pre: nat, i: nat)
    requires Levelled(ms) && pre <= 1 && |r| == pre + |ms| && i < |ms|
    ensures Lists(r, ms, pre, i) ==> NamesParent(r, pre + i)
  {
    hide IdOf;
    if !Lists(r, ms, pre, i) { return; }
    var p := ParentOf(ms, i);
    assert r[pre + i].level == ms[i].level;
    forall k | pre <= k < |r| ensures r[k].level == ms[k - pre].level { assert r[pre + (k - pre)].level == ms[k - pre].level; }
    hide Nearest;
    if p.Some? {
      assert 0 < r[pre + p.value].level < r[pre + i].level && r[pre + i].parentSectionId == Some(r[pre + p.value].sectionId);
    }
  }

  // ----- an example -----

  /** A comment in a code block is no heading: the document is one section, its preamble, of three lines. */
  lemma CommentInCode(hash: Text -> string)
    ensures var t := [96, 96, 96, 10, 35, 32, 120, 10, 96, 96, 96];
      |ParseMarkdownSections(t, hash)| == 1 && ParseMarkdownSections(t, hash)[0].level == 0
      && ParseMarkdownSections(t, hash)[0].lineStart == 1 && ParseMarkdownSections(t, hash)[0].lineEnd == 3
  {
    var fence: Text, comment: Text := [96, 96, 96], [35, 32, 120];
    var lines := [fence] + [comment] + [fence];
    assert Join(lines, NEWLINE) == [96, 96, 96, 10, 35, 32, 120, 10, 96, 96, 96] by {
      assert lines[1..] == [comment, fence] && [comment, fence][1..] == [fence];
      assert Join([fence], NEWLINE) == fence && Join([comment, fence], NEWLINE) == comment + [NEWLINE] + fence;
    }
    assert !HoldsRun(comment, 96, 3) by { assert comment[0] == 35; }
    assert RunAt(fence, 0, 96, 3) && !HoldsRun(fence, 96, 4);
    SplitJoin(lines, NEWLINE);
    BlockIsSilent(fence, [comment], fence, 1, 96, 3);
    hide Marks, Split, Join;
    assert DocMarks(lines) == [];
  }
}
