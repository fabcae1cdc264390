/** Chunking loses nothing: what every chunk is, and what all of them together are. */
module ChunkingTheorems {
  import opened Wrappers
  import opened Lines
  import opened Utf16
  import opened MarkdownSections
  import opened SectionTheorems
  import opened Chunking

  // ----- what is not white space -----

  function NonSpace(t: Text): Text {
    if t == [] then [] else NonSpace(t[..|t| - 1]) + (if IsSpace(t[|t| - 1]) then [] else [t[|t| - 1]])
  }

  function Flat(cs: seq<Text>): Text {
    if cs == [] then [] else cs[0] + Flat(cs[1..])
  }

  lemma {:induction false} NonSpaceConcat(a: Text, b: Text)
    ensures NonSpace(a + b) == NonSpace(a) + NonSpace(b)
  {
    if b == [] {
      assert a + b == a;
    } else {
      assert (a + b)[..|a + b| - 1] == a + b[..|b| - 1];
      NonSpaceConcat(a, b[..|b| - 1]);
    }
  }

  lemma {:induction false} NonSpaceBlank(t: Text)
    requires AllBlank(t, IsSpace)
    ensures NonSpace(t) == []
  {
    if t != [] {
      assert IsSpace(t[|t| - 1]);
      NonSpaceBlank(t[..|t| - 1]);
    }
  }

  lemma {:induction false} FlatConcat(a: seq<Text>, b: seq<Text>)
    ensures Flat(a + b) == Flat(a) + Flat(b)
  {
    if a == [] {
      assert a + b == b;
    } else {
      assert (a + b)[1..] == a[1..] + b;
      FlatConcat(a[1..], b);
    }
  }

  /** The characters of a list of texts, white space apart. */
  function Ink(cs: seq<Text>): Text {
    NonSpace(Flat(cs))
  }

  lemma InkConcat(a: seq<Text>, b: seq<Text>)
    ensures Ink(a + b) == Ink(a) + Ink(b)
  {
    FlatConcat(a, b);
    NonSpaceConcat(Flat(a), Flat(b));
  }

  lemma InkOne(t: Text)
    ensures Ink([t]) == NonSpace(t) && Ink(NonEmpty(t)) == NonSpace(t) && Ink([]) == []
  {
    hide NonSpace;
    assert [t][1..] == [];
    assert t + [] == t;
    assert Flat([t]) == t && Flat([]) == [];
    NonSpaceBlank([]);
  }

  lemma InkCons(cs: seq<Text>)
    requires cs != []
    ensures Ink(cs) == NonSpace(cs[0]) + Ink(cs[1..])
  {
    NonSpaceConcat(cs[0], Flat(cs[1..]));
  }

  lemma TrimKeepsInk(t: Text)
    ensures NonSpace(Trim(t, IsSpace)) == NonSpace(t)
  {
    hide Trim, NonSpace;
    var front, back := TrimCuts(t, IsSpace);
    NonSpaceConcat(front + Trim(t, IsSpace), back);
    NonSpaceConcat(front, Trim(t, IsSpace));
    NonSpaceBlank(front);
    NonSpaceBlank(back);
  }

  // ----- paragraphs, slices and packing keep the characters -----

  lemma NewlineRun(t: Text, n: nat)
    requires n <= RunLength(t, 0, NEWLINE)
    ensures AllBlank(t[..n], IsSpace)
  {
    RunIs(t, 0);
  }

  lemma {:induction false} RunIs(t: Text, i: nat)
    requires i <= |t|
    ensures forall k :: i <= k < i + RunLength(t, i, NEWLINE) ==> t[k] == NEWLINE
    decreases |t| - i
  {
    if i < |t| && t[i] == NEWLINE { RunIs(t, i + 1); }
  }

  lemma {:induction false} ParagraphsKeepInk(t: Text)
    ensures Ink(Paragraphs(t)) == NonSpace(t)
  {
    hide Ink, NonSpace;
    if t == [] {
      InkOne([]);
      NonSpaceBlank([]);
    } else if RunLength(t, 0, NEWLINE) >= 2 {
      var n := RunLength(t, 0, NEWLINE);
      ParagraphsKeepInk(t[n..]);
      NewlineRun(t, n);
      NonSpaceBlank(t[..n]);
      assert t == t[..n] + t[n..];
      NonSpaceConcat(t[..n], t[n..]);
      InkConcat([[]], Paragraphs(t[n..]));
      InkOne([]);
      NonSpaceBlank([]);
    } else {
      var rest := Paragraphs(t[1..]);
      ParagraphsKeepInk(t[1..]);
      assert t == [t[0]] + t[1..];
      NonSpaceConcat([t[0]], t[1..]);
      InkCons(rest);
      var longer := [[t[0]] + rest[0]] + rest[1..];
      assert longer[1..] == rest[1..];
      InkCons(longer);
      NonSpaceConcat([t[0]], rest[0]);
    }
  }

  lemma {:induction false} SlicesKeepInk(p: Text, index: nat)
    requires index <= |p|
    ensures Ink(Slices(p, index)) == NonSpace(p[index..])
    decreases |p| - index
  {
    hide Ink, NonSpace, Trim, CutAt, NonEmpty;
    if index == |p| {
      InkOne([]);
      NonSpaceBlank([]);
      assert p[index..] == [] && Slices(p, index) == [];
    } else {
      var end := CutAt(p, index);
      var piece := Trim(p[index..end], IsSpace);
      SlicesKeepInk(p, end);
      InkConcat(NonEmpty(piece), Slices(p, end));
      InkOne(piece);
      TrimKeepsInk(p[index..end]);
      assert p[index..] == p[index..end] + p[end..];
      NonSpaceConcat(p[index..end], p[end..]);
    }
  }

  lemma CandidateInk(current: Text, p: Text)
    ensures NonSpace(Candidate(current, p)) == NonSpace(current) + NonSpace(p)
  {
    hide NonSpace;
    NonSpaceBlank([]);
    NonSpaceBlank(BREAK);
    NonSpaceConcat(current, BREAK);
    NonSpaceConcat(current + BREAK, p);
  }

  lemma {:induction false} PackKeepsInk(ps: seq<Text>, current: Text)
    ensures Ink(Pack(ps, current)) == NonSpace(current) + Ink(ps)
    decreases |ps|
  {
    hide Ink, NonSpace, NonEmpty, Candidate, Slices;
    InkOne(current);
    if ps != [] {
      InkCons(ps);
      if |Candidate(current, ps[0])| <= MAX_CHUNK_CHARS {
        PackKeepsInk(ps[1..], Candidate(current, ps[0]));
        CandidateInk(current, ps[0]);
      } else {
        var slices, rest := Slices(ps[0], 0), Pack(ps[1..], []);
        PackKeepsInk(ps[1..], []);
        NonSpaceBlank([]);
        InkConcat(NonEmpty(current) + slices, rest);
        InkConcat(NonEmpty(current), slices);
        SlicesKeepInk(ps[0], 0);
        assert ps[0][0..] == ps[0];
      }
    }
  }

  lemma BlankRepaired(t: Text)
    requires AllBlank(t, IsSpace)
    ensures WellFormedText(t) == t
  {
    assert forall i :: 0 <= i < |t| ==> IsSpace(t[i]);
  }

  /** Repairing and trimming commute, white space apart. */
  lemma RepairTrimmed(t: Text)
    ensures NonSpace(WellFormedText(Trim(t, IsSpace))) == NonSpace(WellFormedText(t))
  {
    hide Trim, NonSpace, WellFormedText;
    var front, back := TrimCuts(t, IsSpace);
    var middle := Trim(t, IsSpace);
    BlankCut(front, middle);
    RepairConcat(front, middle);
    BlankCut(front + middle, back);
    RepairConcat(front + middle, back);
    BlankRepaired(front);
    BlankRepaired(back);
    NonSpaceConcat(front + WellFormedText(middle), back);
    NonSpaceConcat(front, WellFormedText(middle));
    NonSpaceBlank(front);
    NonSpaceBlank(back);
  }

  lemma BlankCut(a: Text, b: Text)
    requires AllBlank(a, IsSpace) || AllBlank(b, IsSpace)
    ensures CutsNoPair(a + b, |a|)
  {
    if a != [] && b != [] {
      assert (a + b)[|a| - 1] == a[|a| - 1] && (a + b)[|a|] == b[0];
    }
  }

  lemma SectionKeepsInk(content: Text)
    ensures Ink(SplitSectionContent(content)) == NonSpace(WellFormedText(content))
  {
    hide Trim, NonSpace, WellFormedText, Ink, Pack, Paragraphs;
    var trimmed := WellFormedText(Trim(content, IsSpace));
    RepairTrimmed(content);
    InkOne(trimmed);
    NonSpaceBlank([]);
    ParagraphsKeepInk(trimmed);
    PackKeepsInk(Paragraphs(trimmed), []);
  }

  // ----- the whole document -----

  function Contents(pieces: seq<Piece>): (r: seq<Text>)
    ensures |r| == |pieces| && forall i :: 0 <= i < |r| ==> r[i] == pieces[i].content
  {
    seq(|pieces|, i requires 0 <= i < |pieces| => pieces[i].content)
  }

  function LineInk(lines: seq<Text>): Text {
    NonSpace(WellFormedText(Join(lines, NEWLINE)))
  }

  /** A line break is never half of a pair, so blocks of lines are repaired on their own. */
  lemma LineInkConcat(a: seq<Text>, b: seq<Text>)
    ensures LineInk(a + b) == LineInk(a) + LineInk(b)
  {
    hide NonSpace, WellFormedText, Join;
    if a == [] || b == [] {
      assert a + b == a || a + b == b;
      NoLinesNoInk();
    } else {
      var x, y, nl := Join(a, NEWLINE), Join(b, NEWLINE), [NEWLINE];
      JoinAppend(a, b, NEWLINE);
      BlankCut(x, nl);
      RepairConcat(x, nl);
      NewlineCut(x, y);
      RepairConcat(x + nl, y);
      BlankRepaired(nl);
      NonSpaceConcat(WellFormedText(x) + nl, WellFormedText(y));
      NonSpaceConcat(WellFormedText(x), nl);
      NonSpaceBlank(nl);
    }
  }

  lemma NewlineCut(x: Text, y: Text)
    ensures CutsNoPair(x + [NEWLINE] + y, |x + [NEWLINE]|)
  {
    assert (x + [NEWLINE] + y)[|x|] == NEWLINE;
  }

  lemma NoLinesNoInk()
    ensures LineInk([]) == []
  {}

  /** The lines of the first `n` sections. */
  function LinesUpTo(t: Text, n: nat): seq<Text>
    requires n <= SectionCount(t)
  {
    SectionsFit(t);
    Reassembled(Split(t, NEWLINE), Sections(t)[..n])
  }

  lemma LinesStep(t: Text, k: nat) returns (here: seq<Text>)
    requires k < SectionCount(t)
    ensures LinesUpTo(t, k + 1) == LinesUpTo(t, k) + here && SectionContent(t, k) == Join(here, NEWLINE)
  {
    hide Sections, Split, Join;
    SectionsFit(t);
    assert Sections(t)[k] in Sections(t);
    assert Sections(t)[..k + 1][..k] == Sections(t)[..k];
    here := SectionLines(Split(t, NEWLINE), Sections(t)[k].lineStart, Sections(t)[k].lineEnd);
  }

  lemma LabelledContents(before: seq<Piece>, s: Section, contents: seq<Text>)
    ensures Contents(before + Labelled(s, contents, |before|)) == Contents(before) + contents
  {}

  lemma InkStep(before: seq<Piece>, s: Section, content: Text, above: seq<Text>, here: seq<Text>)
    requires Ink(Contents(before)) == LineInk(above) && content == Join(here, NEWLINE)
    ensures Ink(Contents(before + Labelled(s, SplitSectionContent(content), |before|))) == LineInk(above + here)
  {
    hide *;
    LabelledContents(before, s, SplitSectionContent(content));
    InkConcat(Contents(before), SplitSectionContent(content));
    SectionKeepsInk(content);
    LineInkConcat(above, here);
    LineInkIs(here, content);
  }

  lemma SectionInk(t: Text, k: nat)
    requires k < SectionCount(t) && Ink(Contents(PiecesUpTo(t, k))) == LineInk(LinesUpTo(t, k))
    ensures Ink(Contents(PiecesUpTo(t, k + 1))) == LineInk(LinesUpTo(t, k + 1))
  {
    hide Ink, LineInk, SplitSectionContent, Sections, SectionContent, Contents, Labelled, LinesUpTo, PiecesUpTo, Join;
    SectionStep(t, k);
    var here := LinesStep(t, k);
    InkStep(PiecesUpTo(t, k), Sections(t)[k], SectionContent(t, k), LinesUpTo(t, k), here);
  }

  lemma {:induction false} PiecesKeepInk(t: Text, n: nat)
    requires n <= SectionCount(t)
    ensures Ink(Contents(PiecesUpTo(t, n))) == LineInk(LinesUpTo(t, n))
  {
    hide *;
    if n == 0 {
      NoInk(t);
    } else {
      PiecesKeepInk(t, n - 1);
      SectionInk(t, n - 1);
    }
  }

  lemma NoInk(t: Text)
    ensures Ink(Contents(PiecesUpTo(t, 0))) == LineInk(LinesUpTo(t, 0)) == []
  {
    hide Sections, Ink, LineInk;
    NoLinesNoInk();
    InkOne([]);
    assert Contents([]) == [];
  }

  lemma LineInkIs(lines: seq<Text>, content: Text)
    requires content == Join(lines, NEWLINE)
    ensures LineInk(lines) == NonSpace(WellFormedText(content))
  {}

  /** The characters of all chunks in order are those of the whole repaired document, white space apart. */
  lemma ChunkingIsLossless(t: Text)
    ensures Ink(Contents(Pieces(t))) == NonSpace(WellFormedText(t))
  {
    hide Ink, PiecesUpTo, Sections, NonSpace, WellFormedText, Split, Join, Reassembled;
    SectionsFit(t);
    PiecesKeepInk(t, SectionCount(t));
    assert Sections(t)[..SectionCount(t)] == Sections(t);
    JoinSplit(t, NEWLINE);
  }

  // ----- what one chunk is -----

  predicate IsChunk(t: Text) {
    1 <= |t| <= 1400 && WellFormed(t)
  }

  predicate AreChunks(cs: seq<Text>) {
    forall i :: 0 <= i < |cs| ==> IsChunk(cs[i])
  }

  predicate AreWellFormed(cs: seq<Text>) {
    forall i :: 0 <= i < |cs| ==> WellFormed(cs[i])
  }

  lemma ChunksConcat(a: seq<Text>, b: seq<Text>)
    requires AreChunks(a) && AreChunks(b)
    ensures AreChunks(a + b)
  {
    hide IsChunk;
  }

  lemma OneChunk(t: Text)
    requires WellFormed(t) && |t| <= MAX_CHUNK_CHARS
    ensures AreChunks(NonEmpty(t))
  {
    hide WellFormed;
  }

  lemma ConcatWellFormed(a: Text, b: Text)
    requires WellFormed(a) && WellFormed(b)
    ensures WellFormed(a + b)
  {
    var t := a + b;
    forall i | 0 <= i < |t| ensures !IsLone(t, i) {
      if i < |a| { assert !IsLone(a, i); } else { assert !IsLone(b, i - |a|); }
    }
  }

  lemma TrimWellFormed(t: Text)
    requires WellFormed(t)
    ensures WellFormed(Trim(t, IsSpace)) && |Trim(t, IsSpace)| <= |t|
  {
    hide Trim;
    var front, back := TrimCuts(t, IsSpace);
    var middle := Trim(t, IsSpace);
    BlankCut(front, middle + back);
    BlankCut(front + middle, back);
    assert t == front + (middle + back) == front + middle + back;
    SliceWellFormed(t, |front|, |front + middle|);
    assert t[|front|..|front + middle|] == middle;
  }

  lemma NothingWellFormed()
    ensures WellFormed([]) && AreWellFormed(Paragraphs([]))
  {}

  predicate FirstBreak(t: Text, n: nat) {
    && n <= |t| && (n < |t| ==> RunLength(t, n, NEWLINE) >= 2)
    && forall i :: 0 <= i < n ==> RunLength(t, i, NEWLINE) < 2
  }

  lemma FirstBreakShift(t: Text, n: nat)
    requires t != [] && RunLength(t, 0, NEWLINE) < 2 && FirstBreak(t[1..], n)
    ensures FirstBreak(t, n + 1)
  {
    hide RunLength;
    forall i | 1 <= i <= n + 1 ensures RunLength(t[1..], i - 1, NEWLINE) == RunLength(t, i, NEWLINE) { RunShift(t, i); }
  }

  predicate Shaped(t: Text, n: nat) {
    && n <= |t| && Paragraphs(t)[0] == t[..n]
    && if n == |t| then |Paragraphs(t)| == 1 else Paragraphs(t)[1..] == Paragraphs(t[n + RunLength(t, n, NEWLINE)..])
  }

  lemma ParagraphsCons(t: Text)
    requires t != [] && RunLength(t, 0, NEWLINE) < 2
    ensures var rest := Paragraphs(t[1..]);
      |Paragraphs(t)| == |rest| && Paragraphs(t)[0] == [t[0]] + rest[0] && Paragraphs(t)[1..] == rest[1..]
  {
    hide RunLength;
  }

  lemma ShapedShift(t: Text, n: nat)
    requires t != [] && RunLength(t, 0, NEWLINE) < 2 && Shaped(t[1..], n)
    ensures Shaped(t, n + 1)
  {
    hide RunLength, Paragraphs;
    ParagraphsCons(t);
    RunShift(t, n + 1);
    assert t[..n + 1] == [t[0]] + t[1..][..n];
    var run := RunLength(t, n + 1, NEWLINE);
    assert t[1..][n + run..] == t[n + 1 + run..];
  }

  /** The first paragraph runs to the first break or to the end; the others are those of what follows the break. */
  lemma {:induction false} ParagraphsShape(t: Text) returns (n: nat)
    ensures FirstBreak(t, n) && Shaped(t, n)
  {
    if t == [] {
      n := 0;
    } else if RunLength(t, 0, NEWLINE) >= 2 {
      n := 0;
    } else {
      hide FirstBreak, Shaped, Paragraphs;
      n := ParagraphsShape(t[1..]);
      FirstBreakShift(t, n);
      ShapedShift(t, n);
      n := n + 1;
    }
  }

  lemma {:induction false} RunShift(t: Text, i: nat)
    requires 1 <= i <= |t|
    ensures RunLength(t[1..], i - 1, NEWLINE) == RunLength(t, i, NEWLINE)
    decreases |t| - i
  {
    if i < |t| && t[i] == NEWLINE { RunShift(t, i + 1); }
  }

  lemma {:induction false} ParagraphsWellFormed(t: Text)
    requires WellFormed(t)
    ensures AreWellFormed(Paragraphs(t))
    decreases |t|
  {
    hide Paragraphs;
    NothingWellFormed();
    var n := ParagraphsShape(t);
    if n < |t| {
      RunIs(t, n);
      var next := n + RunLength(t, n, NEWLINE);
      SliceWellFormed(t, 0, n);
      SliceWellFormed(t, next, |t|);
      assert t[0..n] == t[..n] && t[next..|t|] == t[next..];
      ParagraphsWellFormed(t[next..]);
      forall i | 0 <= i < |Paragraphs(t)| ensures WellFormed(Paragraphs(t)[i]) {
        if i > 0 { assert Paragraphs(t)[i] == Paragraphs(t[next..])[i - 1]; }
      }
    } else {
      assert t[..n] == t;
    }
  }

  lemma {:induction false} SlicesAreChunks(p: Text, index: nat)
    requires index <= |p| && WellFormed(p) && CutsNoPair(p, index)
    ensures AreChunks(Slices(p, index))
    decreases |p| - index
  {
    hide Trim, NonEmpty, WellFormed, IsChunk;
    if index < |p| {
      var end := CutAt(p, index);
      SliceWellFormed(p, index, end);
      TrimWellFormed(p[index..end]);
      OneChunk(Trim(p[index..end], IsSpace));
      SlicesAreChunks(p, end);
      ChunksConcat(NonEmpty(Trim(p[index..end], IsSpace)), Slices(p, end));
    }
  }

  lemma CandidateWellFormed(current: Text, p: Text)
    requires WellFormed(current) && WellFormed(p)
    ensures WellFormed(Candidate(current, p))
  {
    assert WellFormed(BREAK);
    hide WellFormed;
    ConcatWellFormed(current, BREAK);
    ConcatWellFormed(current + BREAK, p);
  }

  lemma {:induction false} PackMakesChunks(ps: seq<Text>, current: Text)
    requires AreWellFormed(ps) && WellFormed(current) && |current| <= MAX_CHUNK_CHARS
    ensures AreChunks(Pack(ps, current))
    decreases |ps|
  {
    hide WellFormed, IsChunk, NonEmpty, Candidate, Slices;
    OneChunk(current);
    if ps != [] {
      assert WellFormed(ps[0]) && AreWellFormed(ps[1..]);
      if |Candidate(current, ps[0])| <= MAX_CHUNK_CHARS {
        CandidateWellFormed(current, ps[0]);
        PackMakesChunks(ps[1..], Candidate(current, ps[0]));
      } else {
        NothingWellFormed();
        PackMakesChunks(ps[1..], []);
        SlicesAreChunks(ps[0], 0);
        ChunksConcat(NonEmpty(current), Slices(ps[0], 0));
        ChunksConcat(NonEmpty(current) + Slices(ps[0], 0), Pack(ps[1..], []));
      }
    }
  }

  /** Every chunk of a section has 1 to 1400 units and parts no surrogate pair. */
  lemma SectionMakesChunks(content: Text)
    ensures AreChunks(SplitSectionContent(content))
  {
    hide Trim, WellFormedText, WellFormed, Paragraphs, Pack;
    var trimmed := WellFormedText(Trim(content, IsSpace));
    RepairedIsWellFormed(Trim(content, IsSpace));
    if |trimmed| > MAX_CHUNK_CHARS {
      ParagraphsWellFormed(trimmed);
      NothingWellFormed();
      PackMakesChunks(Paragraphs(trimmed), []);
    }
  }

  predicate IsPiece(p: Piece, index: nat) {
    IsChunk(p.content) && p.index == index
  }

  lemma LabelledPieces(before: seq<Piece>, s: Section, contents: seq<Text>)
    requires AreChunks(contents) && forall i :: 0 <= i < |before| ==> IsPiece(before[i], i)
    ensures var all := before + Labelled(s, contents, |before|); forall i :: 0 <= i < |all| ==> IsPiece(all[i], i)
  {
    hide IsChunk;
    assert forall i :: 0 <= i < |contents| ==> IsChunk(contents[i]);
  }

  lemma {:induction false} FirstPiecesAreChunks(t: Text, n: nat)
    requires n <= SectionCount(t)
    ensures forall i :: 0 <= i < |PiecesUpTo(t, n)| ==> IsPiece(PiecesUpTo(t, n)[i], i)
  {
    hide Sections, SplitSectionContent, SectionContent, Labelled, IsPiece, PiecesUpTo;
    if n == 0 {
      NoPieces(t);
    } else {
      FirstPiecesAreChunks(t, n - 1);
      SectionStep(t, n - 1);
      SectionMakesChunks(SectionContent(t, n - 1));
      LabelledPieces(PiecesUpTo(t, n - 1), Sections(t)[n - 1], SplitSectionContent(SectionContent(t, n - 1)));
    }
  }

  /** Every chunk of a document has 1 to 1400 units, cuts no surrogate pair, and is numbered by its position. */
  lemma PiecesAreChunks(t: Text)
    ensures forall i :: 0 <= i < |Pieces(t)| ==> IsPiece(Pieces(t)[i], i)
  {
    hide Sections, IsPiece, PiecesUpTo;
    FirstPiecesAreChunks(t, SectionCount(t));
  }

  /** The least text there is to chunk: one letter is one section and one chunk. */
  lemma OneLetter(letter: Text)
    requires letter == [97]
    ensures SectionCount(letter) == 1 && |Pieces(letter)| == 1
  {
    LetterLine(letter);
    hide DocMarks;
    assert Sections(letter) == [Preamble([letter], [], UNHASHED)];
    assert SectionContent(letter, 0) == letter;
    LetterChunk(letter);
    hide Sections, SplitSectionContent, SectionContent, PiecesUpTo;
    NoPieces(letter);
    SectionStep(letter, 0);
  }

  lemma LetterLine(letter: Text)
    requires letter == [97]
    ensures Split(letter, NEWLINE) == [letter] && DocMarks([letter]) == []
  {
    SplitPrefix(letter, NEWLINE, []);
    MarksUnfold([letter], 1, None);
  }

  lemma LetterChunk(letter: Text)
    requires letter == [97]
    ensures SplitSectionContent(letter) == [letter]
  {
    hide Pack, Paragraphs, Trim;
    TrimFixed(letter, IsSpace);
    assert WellFormed(letter);
    hide WellFormed;
    RepairedIsWellFormed(letter);
  }

  // ----- short paragraphs stay whole -----

  predicate HoldsAt(c: Text, p: Text, i: nat) {
    i + |p| <= |c| && c[i..i + |p|] == p
  }

  ghost predicate Holds(c: Text, p: Text) {
    exists i: nat :: HoldsAt(c, p, i)
  }

  ghost predicate SomeHolds(cs: seq<Text>, p: Text) {
    exists k :: 0 <= k < |cs| && Holds(cs[k], p)
  }

  lemma HoldsInside(a: Text, c: Text, b: Text, p: Text)
    requires Holds(c, p)
    ensures Holds(a + c + b, p)
  {
    var i: nat :| HoldsAt(c, p, i);
    assert (a + c + b)[|a| + i..|a| + i + |p|] == p;
    assert HoldsAt(a + c + b, p, |a| + i);
  }

  lemma HoldsTrimmed(p: Text)
    ensures Holds(p, Trim(p, IsSpace)) && Holds(p, p)
  {
    hide Trim;
    var front, back := TrimCuts(p, IsSpace);
    var t := Trim(p, IsSpace);
    assert t[0..|t|] == t && p[0..|p|] == p;
    assert HoldsAt(t, t, 0) && HoldsAt(p, p, 0);
    HoldsInside(front, t, back, t);
  }

  lemma SomeHoldsConcat(a: seq<Text>, b: seq<Text>, p: Text)
    requires SomeHolds(a, p) || SomeHolds(b, p)
    ensures SomeHolds(a + b, p)
  {
    hide Holds;
    if SomeHolds(a, p) {
      var k :| 0 <= k < |a| && Holds(a[k], p);
      assert (a + b)[k] == a[k];
    } else {
      var k :| 0 <= k < |b| && Holds(b[k], p);
      assert (a + b)[|a| + k] == b[k];
    }
  }

  lemma OneHolds(c: Text, p: Text)
    requires Holds(c, p) && c != []
    ensures SomeHolds(NonEmpty(c), p)
  {
    assert NonEmpty(c)[0] == c;
  }

  /** What has been packed reaches a chunk. */
  lemma {:induction false} CurrentStays(ps: seq<Text>, current: Text, p: Text)
    requires Holds(current, p) && current != []
    ensures SomeHolds(Pack(ps, current), p)
    decreases |ps|
  {
    hide Holds, SomeHolds, Slices, NonEmpty;
    OneHolds(current, p);
    if ps != [] {
      if |Candidate(current, ps[0])| <= MAX_CHUNK_CHARS {
        HoldsInside([], current, BREAK + ps[0], p);
        assert [] + current + (BREAK + ps[0]) == Candidate(current, ps[0]);
        CurrentStays(ps[1..], Candidate(current, ps[0]), p);
      } else {
        SomeHoldsConcat(NonEmpty(current), Slices(ps[0], 0), p);
        SomeHoldsConcat(NonEmpty(current) + Slices(ps[0], 0), Pack(ps[1..], []), p);
      }
    }
  }

  lemma ShortSlice(p: Text)
    requires 0 < |p| <= MAX_CHUNK_CHARS
    ensures Slices(p, 0) == NonEmpty(Trim(p, IsSpace))
  {
    hide Trim, NonEmpty;
    SlicesEnd(p);
    assert p[0..|p|] == p && CutAt(p, 0) == |p|;
  }

  /** A paragraph that is packed with what is pending stays inside the chunk that comes of it. */
  lemma PackedWhole(p: Text, current: Text, rest: seq<Text>)
    requires |Candidate(current, p)| <= MAX_CHUNK_CHARS && Trim(p, IsSpace) != []
    ensures SomeHolds(Pack(rest, Candidate(current, p)), Trim(p, IsSpace))
  {
    var before := if current == [] then [] else current + BREAK;
    TrimOfNothing();
    HoldsTrimmed(p);
    assert before + p + [] == Candidate(current, p);
    hide Holds, SomeHolds, Trim, Candidate, Pack;
    HoldsInside(before, p, [], Trim(p, IsSpace));
    CurrentStays(rest, before + p + [], Trim(p, IsSpace));
  }

  /** A paragraph that is sliced on its own and fits is its own slice. */
  lemma SlicedWhole(p: Text, current: Text)
    requires |p| <= MAX_CHUNK_CHARS && Trim(p, IsSpace) != []
    ensures SomeHolds(NonEmpty(current) + Slices(p, 0), Trim(p, IsSpace))
  {
    var t := Trim(p, IsSpace);
    TrimOfNothing();
    hide Holds, SomeHolds, Slices, NonEmpty, Trim;
    ShortSlice(p);
    HoldsTrimmed(t);
    OneHolds(t, t);
    SomeHoldsConcat(NonEmpty(current), Slices(p, 0), t);
  }

  lemma {:induction false} PackKeepsWhole(ps: seq<Text>, current: Text, k: nat)
    requires k < |ps| && |ps[k]| <= MAX_CHUNK_CHARS && Trim(ps[k], IsSpace) != []
    ensures SomeHolds(Pack(ps, current), Trim(ps[k], IsSpace))
    decreases |ps|
  {
    hide SomeHolds, Slices, NonEmpty, Trim, Candidate;
    var p, next := Trim(ps[k], IsSpace), Candidate(current, ps[0]);
    if |next| <= MAX_CHUNK_CHARS {
      if k == 0 { PackedWhole(ps[0], current, ps[1..]); } else { PackKeepsWhole(ps[1..], next, k - 1); }
    } else {
      if k == 0 { SlicedWhole(ps[0], current); } else { PackKeepsWhole(ps[1..], [], k - 1); }
      SomeHoldsConcat(NonEmpty(current) + Slices(ps[0], 0), Pack(ps[1..], []), p);
    }
  }

  lemma TrimOfNothing()
    ensures Trim<Unit>([], IsSpace) == []
  {}

  lemma HoldsPrefix(t: Text, n: nat)
    requires n <= |t|
    ensures Holds(t, t[..n])
  {
    assert t[0..n] == t[..n];
    assert HoldsAt(t, t[..n], 0);
  }

  lemma HoldsInSuffix(t: Text, n: nat, p: Text)
    requires n <= |t| && Holds(t[n..], p)
    ensures Holds(t, p)
  {
    HoldsInside(t[..n], t[n..], [], p);
    assert t[..n] + t[n..] + [] == t;
  }

  lemma {:induction false} ParagraphIsInside(t: Text, k: nat)
    requires k < |Paragraphs(t)|
    ensures Holds(t, Paragraphs(t)[k])
    decreases |t|
  {
    hide Holds, Paragraphs;
    var n := ParagraphsShape(t);
    if k == 0 {
      HoldsPrefix(t, n);
    } else {
      var next := n + RunLength(t, n, NEWLINE);
      assert Paragraphs(t)[k] == Paragraphs(t)[1..][k - 1];
      ParagraphIsInside(t[next..], k - 1);
      HoldsInSuffix(t, next, Paragraphs(t)[k]);
    }
  }

  lemma HoldsInner(c: Text, p: Text, q: Text)
    requires Holds(c, p) && Holds(p, q)
    ensures Holds(c, q)
  {
    var i: nat :| HoldsAt(c, p, i);
    hide Holds;
    HoldsInside(c[..i], p, c[i + |p|..], q);
    assert c[..i] + c[i..i + |p|] + c[i + |p|..] == c;
  }

  /** A paragraph of at most 1400 units is never cut: one chunk holds all of it, blanks at its ends apart. */
  lemma ShortParagraphsStayWhole(content: Text, k: nat)
    requires var ps := Paragraphs(WellFormedText(Trim(content, IsSpace)));
      k < |ps| && |ps[k]| <= MAX_CHUNK_CHARS && Trim(ps[k], IsSpace) != []
    ensures SomeHolds(SplitSectionContent(content), Trim(Paragraphs(WellFormedText(Trim(content, IsSpace)))[k], IsSpace))
  {
    hide Trim, WellFormedText, Holds, SomeHolds, Pack, Paragraphs;
    var trimmed := WellFormedText(Trim(content, IsSpace));
    var p := Paragraphs(trimmed)[k];
    var q := Trim(p, IsSpace);
    ParagraphIsInside(trimmed, k);
    HoldsTrimmed(p);
    HoldsInner(trimmed, p, q);
    if trimmed == [] {
      HeldIsShort(trimmed, q);
    } else if |trimmed| <= MAX_CHUNK_CHARS {
      OneHolds(trimmed, q);
    } else {
      PackKeepsWhole(Paragraphs(trimmed), [], k);
    }
  }

  lemma HeldIsShort(c: Text, p: Text)
    requires Holds(c, p)
    ensures |p| <= |c|
  {}
}
