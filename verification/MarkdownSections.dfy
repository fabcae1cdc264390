/** The fence-aware heading parser and the section editors. */
module MarkdownSections {
  import opened Wrappers
  import opened Lines
  import opened Utf16

  const HASH: Unit := 35
  const BACKTICK: Unit := 96
  const TILDE: Unit := 126
  const SPACE: Unit := 32
  const TAB: Unit := 9
  const DASH: Unit := 45
  const SLASH: Unit := 47

  // ----- line tests -----

  datatype Fence = Fence(marker: Unit, length: nat)

  function RunLength(line: Text, i: nat, c: Unit): (n: nat)
    requires i <= |line|
    ensures i + n <= |line|
    decreases |line| - i
  {
    if i < |line| && line[i] == c then 1 + RunLength(line, i + 1, c) else 0
  }

  /** At most three spaces, then three or more backticks or tildes. */
  function FenceOf(line: Text): Option<Fence> {
    var i := RunLength(line, 0, SPACE);
    if i <= 3 && i < |line| && (line[i] == BACKTICK || line[i] == TILDE) && RunLength(line, i, line[i]) >= 3 then
      Some(Fence(line[i], RunLength(line, i, line[i])))
    else None
  }

  /** A fence is closed by a run of its own marker that is at least as long. */
  function NextFence(active: Option<Fence>, line: Text): Option<Fence> {
    if active.None? then FenceOf(line)
    else
      var f := FenceOf(line);
      if f.Some? && f.value.marker == active.value.marker && f.value.length >= active.value.length then None else active
  }

  predicate IsBlank(c: Unit) {
    c == SPACE || c == TAB
  }

  function BlankRun(line: Text, i: nat): (n: nat)
    requires i <= |line|
    ensures i + n <= |line|
    decreases |line| - i
  {
    if i < |line| && IsBlank(line[i]) then 1 + BlankRun(line, i + 1) else 0
  }

  /** Optional closing hashes after a blank, then optional blanks, to the end of the line. */
  predicate IsClosing(line: Text, i: nat)
    requires i <= |line|
  {
    var hashes := i + BlankRun(line, i);
    var end := hashes + RunLength(line, hashes, HASH);
    hashes == |line| || (hashes > i && end > hashes && end + BlankRun(line, end) == |line|)
  }

  /** The lazy match: the shortest end at or after `i` from which the rest is closing. */
  function LazyEnd(line: Text, i: nat): (end: nat)
    requires i <= |line|
    ensures i <= end <= |line| && IsClosing(line, end)
    decreases |line| - i
  {
    if IsClosing(line, i) then i else LazyEnd(line, i + 1)
  }

  datatype HeadingLine = HeadingLine(level: nat, text: Text)

  /** One to six hashes, a blank, and at least one more unit, with no line terminator after the hashes. */
  function HeadingOf(line: Text): (h: Option<HeadingLine>)
    ensures h.Some? ==> 1 <= h.value.level <= 6
  {
    var level := RunLength(line, 0, HASH);
    var blanks := BlankRun(line, level);
    var start := level + blanks;
    if !(1 <= level <= 6) || blanks == 0 || (exists i :: start <= i < |line| && IsTerminatorCode(line[i])) then None
    else if start < |line| then
      Some(HeadingLine(level, Trim(line[start..LazyEnd(line, start + 1)], IsSpace)))
    else if blanks >= 2 then Some(HeadingLine(level, []))
    else None
  }

  // ----- headings of a document -----

  datatype Mark = Mark(line: nat, level: nat, text: Text)

  /** The heading on a line, if it is seen: not inside a fence, and not itself a fence. */
  function HeadMark(line: Text, at: nat, fence: Option<Fence>): seq<Mark> {
    var h := HeadingOf(line);
    if fence.None? && FenceOf(line).None? && h.Some? then [Mark(at, h.value.level, h.value.text)] else []
  }

  /** The headings of some lines, with the fence that is open above them. */
  function Marks(lines: seq<Text>, first: nat, fence: Option<Fence>): seq<Mark>
    decreases |lines|, 1
  {
    if lines == [] then [] else MarksFrom(lines, first, fence)
  }

  function MarksFrom(lines: seq<Text>, first: nat, fence: Option<Fence>): seq<Mark>
    requires lines != []
    decreases |lines|, 0
  {
    HeadMark(lines[0], first, fence) + Marks(lines[1..], first + 1, NextFence(fence, lines[0]))
  }

  function FenceAfter(lines: seq<Text>, fence: Option<Fence>): Option<Fence>
    decreases |lines|, 1
  {
    if lines == [] then fence else FenceFrom(lines, fence)
  }

  function FenceFrom(lines: seq<Text>, fence: Option<Fence>): Option<Fence>
    requires lines != []
    decreases |lines|, 0
  {
    FenceAfter(lines[1..], NextFence(fence, lines[0]))
  }

  lemma MarksUnfold(lines: seq<Text>, first: nat, fence: Option<Fence>)
    requires lines != []
    ensures Marks(lines, first, fence) == HeadMark(lines[0], first, fence) + Marks(lines[1..], first + 1, NextFence(fence, lines[0]))
    ensures FenceAfter(lines, fence) == FenceAfter(lines[1..], NextFence(fence, lines[0]))
  {
    hide HeadMark, NextFence;
  }

  // ----- heading paths -----

  predicate Levelled(ms: seq<Mark>) {
    forall i :: 0 <= i < |ms| ==> ms[i].level >= 1
  }

  // A hole in the JavaScript array is None.
  type Stack = seq<Option<Text>>

  function Resize(s: Stack, n: nat): (r: Stack)
    ensures |r| == n
    ensures forall i :: 0 <= i < n ==> r[i] == if i < |s| then s[i] else None
  {
    if n <= |s| then s[..n] else s + seq(n - |s|, _ => None)
  }

  /** The stack after all the marks; it is the path of the last of them. */
  function StackAfter(ms: seq<Mark>): Stack
    requires Levelled(ms)
  {
    if ms == [] then []
    else
      var last := ms[|ms| - 1];
      Resize(StackAfter(ms[..|ms| - 1]), last.level - 1) + [Some(last.text)]
  }

  function Defined(s: Stack): seq<Text> {
    if s == [] then []
    else Defined(s[..|s| - 1]) + (if s[|s| - 1].Some? then [s[|s| - 1].value] else [])
  }

  // ----- section ids -----

  /** Only the letters whose lower case is ASCII matter to a slug. */
  function Lower(t: Text): Text {
    if t == [] then []
    else
      var c := t[0];
      (if 65 <= c <= 90 then [c + 32] else if c == 0x212A then [107] else if c == 0x130 then [105, 0x307] else [c]) + Lower(t[1..])
  }

  predicate IsSlugUnit(c: Unit) {
    97 <= c <= 122 || 48 <= c <= 57
  }

  /** Runs of other units become one dash between runs of slug units; backticks vanish first. */
  function Dashed(t: Text, started: bool, gap: bool): Text {
    if t == [] then []
    else if t[0] == BACKTICK then Dashed(t[1..], started, gap)
    else if IsSlugUnit(t[0]) then (if started && gap then [DASH] else []) + [t[0]] + Dashed(t[1..], true, false)
    else Dashed(t[1..], started, true)
  }

  function SlugPart(t: Text): Text {
    var slug := Dashed(Lower(Trim(t, IsSpace)), false, false);
    if slug == [] then Units("section") else slug
  }

  function PathSlugs(path: Stack): seq<Text> {
    seq(|path|, i requires 0 <= i < |path| => if path[i].Some? then SlugPart(path[i].value) else [])
  }

  function Base(path: Stack): Text {
    Join(PathSlugs(path), SLASH)
  }

  function Decimal(n: nat): Text {
    if n < 10 then [48 + n] else Decimal(n / 10) + [48 + n % 10]
  }

  function UniqueSectionId(base: Text, count: nat): Text {
    if count == 0 then base else base + [DASH] + Decimal(count + 1)
  }

  function PathOf(ms: seq<Mark>, i: nat): Stack
    requires i < |ms| && Levelled(ms)
  {
    StackAfter(ms[..i + 1])
  }

  /** How many of the first `i` headings have this base. */
  function BaseCount(ms: seq<Mark>, i: nat, base: Text): nat
    requires i <= |ms| && Levelled(ms)
  {
    if i == 0 then 0 else BaseCount(ms, i - 1, base) + (if Base(PathOf(ms, i - 1)) == base then 1 else 0)
  }

  function IdOf(ms: seq<Mark>, i: nat): Text
    requires i < |ms| && Levelled(ms)
  {
    UniqueSectionId(Base(PathOf(ms, i)), BaseCount(ms, i, Base(PathOf(ms, i))))
  }

  /** The nearest heading before position `i` with a level below `level`. */
  function Nearest(ms: seq<Mark>, i: nat, level: nat): (p: Option<nat>)
    requires i <= |ms|
    ensures p.Some? ==> p.value < i && ms[p.value].level < level
    ensures forall k :: (if p.Some? then p.value + 1 else 0) <= k < i ==> ms[k].level >= level
  {
    if i == 0 then None
    else if ms[i - 1].level < level then Some(i - 1)
    else Nearest(ms, i - 1, level)
  }

  function ParentOf(ms: seq<Mark>, i: nat): Option<nat>
    requires i < |ms|
  {
    Nearest(ms, i, ms[i].level)
  }

  // ----- sections -----

  datatype Section = Section(
    sectionId: Text, parentSectionId: Option<Text>, heading: Text, headingPath: Stack,
    level: nat, lineStart: nat, lineEnd: nat, contentHash: string)

  function SectionLines(lines: seq<Text>, start: nat, end: nat): seq<Text>
    requires 1 <= start <= end + 1 && end <= |lines|
  {
    lines[start - 1..end]
  }

  predicate Ordered(ms: seq<Mark>, total: nat) {
    && Levelled(ms)
    && (forall i :: 0 <= i < |ms| ==> 1 <= ms[i].line <= total)
    && (forall i, j :: 0 <= i < j < |ms| ==> ms[i].line < ms[j].line)
  }

  function EndOf(ms: seq<Mark>, i: nat, total: nat): nat
    requires i < |ms| && Ordered(ms, total)
  {
    if i + 1 < |ms| then ms[i + 1].line - 1 else total
  }

  function SectionAt(lines: seq<Text>, ms: seq<Mark>, i: nat, hash: Text -> string): Section
    requires i < |ms| && Ordered(ms, |lines|)
  {
    var end := EndOf(ms, i, |lines|);
    var parent := ParentOf(ms, i);
    Section(
      IdOf(ms, i), if parent.Some? then Some(IdOf(ms, parent.value)) else None, ms[i].text, PathOf(ms, i),
      ms[i].level, ms[i].line, end, hash(Join(SectionLines(lines, ms[i].line, end), NEWLINE)))
  }

  function HasPreamble(ms: seq<Mark>): bool {
    ms == [] || ms[0].line > 1
  }

  function Preamble(lines: seq<Text>, ms: seq<Mark>, hash: Text -> string): Section
    requires Ordered(ms, |lines|)
  {
    var end := if ms == [] then |lines| else ms[0].line - 1;
    Section(Units("_preamble"), None, Units("_preamble"), [], 0, 1, end, hash(Join(SectionLines(lines, 1, end), NEWLINE)))
  }

  /** Levels in range, and lines strictly increasing within `first` and the `count` lines from there. */
  predicate MarksIn(ms: seq<Mark>, first: nat, count: nat) {
    && (forall i :: 0 <= i < |ms| ==> first <= ms[i].line < first + count && 1 <= ms[i].level <= 6)
    && (forall i, j :: 0 <= i < j < |ms| ==> ms[i].line < ms[j].line)
  }

  lemma HeadInRange(line: Text, at: nat, fence: Option<Fence>)
    ensures MarksIn(HeadMark(line, at, fence), at, 1) && |HeadMark(line, at, fence)| <= 1
  {}

  lemma MarksInConcat(a: seq<Mark>, b: seq<Mark>, first: nat, n: nat, m: nat)
    requires MarksIn(a, first, n) && MarksIn(b, first + n, m)
    ensures MarksIn(a + b, first, n + m)
  {}

  lemma {:induction false} MarksOrdered(lines: seq<Text>, first: nat, fence: Option<Fence>)
    ensures MarksIn(Marks(lines, first, fence), first, |lines|)
  {
    if lines != [] {
      var next := NextFence(fence, lines[0]);
      MarksOrdered(lines[1..], first + 1, next);
      HeadInRange(lines[0], first, fence);
      hide MarksIn, HeadMark, NextFence;
      MarksInConcat(HeadMark(lines[0], first, fence), Marks(lines[1..], first + 1, next), first, 1, |lines| - 1);
    }
  }

  function DocMarks(lines: seq<Text>): (ms: seq<Mark>)
    ensures Ordered(ms, |lines|)
  {
    MarksOrdered(lines, 1, None);
    Marks(lines, 1, None)
  }

  function HeadingSections(lines: seq<Text>, ms: seq<Mark>, hash: Text -> string): (r: seq<Section>)
    requires Ordered(ms, |lines|)
    ensures |r| == |ms| && forall i :: 0 <= i < |ms| ==> r[i] == SectionAt(lines, ms, i, hash)
  {
    seq(|ms|, i requires 0 <= i < |ms| => SectionAt(lines, ms, i, hash))
  }

  function SectionsOf(lines: seq<Text>, hash: Text -> string): seq<Section> {
    var ms := DocMarks(lines);
    (if HasPreamble(ms) then [Preamble(lines, ms, hash)] else []) + HeadingSections(lines, ms, hash)
  }

  function ParseMarkdownSections(markdown: Text, hash: Text -> string): seq<Section> {
    SectionsOf(Split(markdown, NEWLINE), hash)
  }

  function SectionMarkdown(markdown: Text, start: nat, end: nat): Text
    requires 1 <= start <= end + 1 && end <= |Split(markdown, NEWLINE)|
  {
    Join(SectionLines(Split(markdown, NEWLINE), start, end), NEWLINE)
  }

  function Splice(lines: seq<Text>, start: nat, end: nat, insert: seq<Text>): seq<Text>
    requires 1 <= start <= end + 1 && end <= |lines|
  {
    lines[..start - 1] + insert + lines[end..]
  }

  function ReplaceSectionMarkdown(markdown: Text, start: nat, end: nat, replacement: Text): Text
    requires 1 <= start <= end + 1 && end <= |Split(markdown, NEWLINE)|
  {
    Join(Splice(Split(markdown, NEWLINE), start, end, Split(replacement, NEWLINE)), NEWLINE)
  }

  function Insertion(addition: Text): seq<Text> {
    [[]] + Split(TrimEnd(addition, IsSpace), NEWLINE)
  }

  function AppendToSectionMarkdown(markdown: Text, end: nat, addition: Text): Text
    requires end <= |Split(markdown, NEWLINE)|
  {
    Join(Splice(Split(markdown, NEWLINE), end + 1, end, Insertion(addition)), NEWLINE)
  }
}
