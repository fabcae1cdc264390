/** Cutting a document into chunks: paragraph packing, and slices that keep surrogate pairs whole. */
module Chunking {
  import opened Wrappers
  import opened Lines
  import opened Utf16
  import opened MarkdownSections
  import opened SectionTheorems
  import Parser = SectionParser

  const MAX_CHUNK_CHARS: nat := 1400
  const BREAK: Text := [NEWLINE, NEWLINE]

  // ----- one section -----

  /** Split at every run of two or more newlines. */
  function Paragraphs(t: Text): (ps: seq<Text>)
    ensures ps != []
  {
    if t == [] then [[]]
    else if RunLength(t, 0, NEWLINE) >= 2 then [[]] + Paragraphs(t[RunLength(t, 0, NEWLINE)..])
    else
      var rest := Paragraphs(t[1..]);
      [[t[0]] + rest[0]] + rest[1..]
  }

  /** Where the slice that starts at `index` ends: a unit early if it would part a surrogate pair. */
  function CutAt(p: Text, index: nat): (end: nat)
    requires index < |p|
    ensures index < end <= |p| && end - index <= MAX_CHUNK_CHARS && CutsNoPair(p, end)
  {
    var end := if index + MAX_CHUNK_CHARS < |p| then index + MAX_CHUNK_CHARS else |p|;
    if end < |p| && IsHigh(p[end - 1]) && IsLow(p[end]) then end - 1 else end
  }

  function NonEmpty(t: Text): seq<Text> {
    if t == [] then [] else [t]
  }

  function Slices(p: Text, index: nat): seq<Text>
    requires index <= |p|
    decreases |p| - index
  {
    if index == |p| then []
    else NonEmpty(Trim(p[index..CutAt(p, index)], IsSpace)) + Slices(p, CutAt(p, index))
  }

  function Candidate(current: Text, paragraph: Text): Text {
    if current == [] then paragraph else current + BREAK + paragraph
  }

  /** Paragraphs are packed while they fit; one that does not fit is sliced on its own. */
  function Pack(ps: seq<Text>, current: Text): seq<Text> {
    if ps == [] then NonEmpty(current)
    else if |Candidate(current, ps[0])| <= MAX_CHUNK_CHARS then Pack(ps[1..], Candidate(current, ps[0]))
    else NonEmpty(current) + Slices(ps[0], 0) + Pack(ps[1..], [])
  }

  function SplitSectionContent(content: Text): seq<Text> {
    var trimmed := WellFormedText(Trim(content, IsSpace));
    if trimmed == [] then []
    else if |trimmed| <= MAX_CHUNK_CHARS then [trimmed]
    else Pack(Paragraphs(trimmed), [])
  }

  // ----- a document -----

  datatype Piece = Piece(sectionId: Text, headingPath: Stack, index: nat, content: Text)

  /** The chunks of one section, numbered from `first`. */
  function Labelled(s: Section, contents: seq<Text>, first: nat): (r: seq<Piece>)
    ensures |r| == |contents|
  {
    seq(|contents|, i requires 0 <= i < |contents| => Piece(s.sectionId, s.headingPath, first + i, contents[i]))
  }

  // The section hashes do not reach the chunks.
  const UNHASHED: Text -> string := _ => ""

  function Sections(t: Text): seq<Section> {
    MarkdownSections.ParseMarkdownSections(t, UNHASHED)
  }

  function SectionCount(t: Text): nat {
    |Sections(t)|
  }

  lemma SectionsFit(t: Text)
    ensures Within(Sections(t), |Split(t, NEWLINE)|)
    ensures Reassembled(Split(t, NEWLINE), Sections(t)) == Split(t, NEWLINE)
  {
    hide SectionsOf;
    SectionsReassemble(Split(t, NEWLINE), UNHASHED);
  }

  function SectionContent(t: Text, k: nat): Text
    requires k < SectionCount(t)
  {
    SectionsFit(t);
    assert Sections(t)[k] in Sections(t);
    SectionMarkdown(t, Sections(t)[k].lineStart, Sections(t)[k].lineEnd)
  }

  /** The chunks of the first `n` sections. */
  function PiecesUpTo(t: Text, n: nat): seq<Piece>
    requires n <= SectionCount(t)
    decreases n, 0
  {
    if n == 0 then [] else PiecesUpTo(t, n - 1) + PiecesAt(t, n - 1)
  }

  /** The chunks of section `k`, numbered on from those of the sections before it. */
  function PiecesAt(t: Text, k: nat): seq<Piece>
    requires k < SectionCount(t)
    decreases k, 1
  {
    Labelled(Sections(t)[k], SplitSectionContent(SectionContent(t, k)), |PiecesUpTo(t, k)|)
  }

  /** The chunks of a document, in order. */
  function Pieces(t: Text): seq<Piece> {
    PiecesUpTo(t, SectionCount(t))
  }

  // ----- the loops -----

  lemma SliceStep(p: Text, index: nat, before: seq<Text>)
    requires index < |p|
    ensures before + NonEmpty(Trim(p[index..CutAt(p, index)], IsSpace)) + Slices(p, CutAt(p, index)) == before + Slices(p, index)
  {
    hide Trim, NonEmpty, CutAt;
  }

  lemma SlicesEnd(p: Text)
    ensures Slices(p, |p|) == []
  {}

  method SlicesOf(paragraph: Text) returns (chunks: seq<Text>)
    ensures chunks == Slices(paragraph, 0)
  {
    hide Slices, Trim, IsHigh, IsLow, CutsNoPair;
    chunks := [];
    var index := 0;
    SlicesEnd(paragraph);
    while index < |paragraph|
      invariant 0 <= index <= |paragraph|
      invariant chunks + Slices(paragraph, index) == Slices(paragraph, 0)
      decreases |paragraph| - index
    {
      var end := if index + MAX_CHUNK_CHARS < |paragraph| then index + MAX_CHUNK_CHARS else |paragraph|;
      if end < |paragraph| && IsHigh(paragraph[end - 1]) && IsLow(paragraph[end]) {
        end := end - 1;
      }
      assert end == CutAt(paragraph, index);
      hide CutAt;
      SliceStep(paragraph, index, chunks);
      var piece := Trim(paragraph[index..end], IsSpace);
      chunks := if piece != [] then chunks + [piece] else chunks;
      index := end;
    }
  }

  lemma PackStep(ps: seq<Text>, k: nat, current: Text, before: seq<Text>)
    requires k < |ps|
    ensures var next := Candidate(current, ps[k]);
      before + Pack(ps[k..], current) ==
      if |next| <= MAX_CHUNK_CHARS then before + Pack(ps[k + 1..], next)
      else before + NonEmpty(current) + Slices(ps[k], 0) + Pack(ps[k + 1..], [])
  {
    hide Slices, Candidate, NonEmpty;
    assert ps[k..][1..] == ps[k + 1..] && ps[k..][0] == ps[k];
  }

  /** One paragraph: packed with the pending text, or the pending text and its slices are chunks. */
  method AddParagraph(paragraph: Text, pending: Text, before: seq<Text>) returns (chunks: seq<Text>, current: Text)
    ensures |Candidate(pending, paragraph)| <= MAX_CHUNK_CHARS ==> chunks == before && current == Candidate(pending, paragraph)
    ensures |Candidate(pending, paragraph)| > MAX_CHUNK_CHARS ==> chunks == before + NonEmpty(pending) + Slices(paragraph, 0) && current == []
  {
    hide Slices;
    chunks, current := before, pending;
    var candidate := if current != [] then current + BREAK + paragraph else paragraph;
    if |candidate| <= MAX_CHUNK_CHARS {
      current := candidate;
      return;
    }
    if current != [] {
      chunks := chunks + [current];
      current := [];
    }
    var slices := SlicesOf(paragraph);
    chunks := chunks + slices;
  }

  method PackParagraphs(paragraphs: seq<Text>) returns (chunks: seq<Text>)
    ensures chunks == Pack(paragraphs, [])
  {
    hide Slices, Candidate, Pack;
    chunks := [];
    var current: Text := [];
    assert paragraphs[0..] == paragraphs;
    for k := 0 to |paragraphs|
      invariant chunks + Pack(paragraphs[k..], current) == Pack(paragraphs, [])
    {
      PackStep(paragraphs, k, current, chunks);
      chunks, current := AddParagraph(paragraphs[k], current, chunks);
    }
    PackEnd(current);
    assert paragraphs[|paragraphs|..] == [];
    if current != [] {
      chunks := chunks + [current];
    }
  }

  lemma PackEnd(current: Text)
    ensures Pack([], current) == NonEmpty(current)
  {}

  method SplitIntoChunks(content: Text) returns (chunks: seq<Text>)
    ensures chunks == SplitSectionContent(content)
  {
    hide Pack, Paragraphs, Trim, WellFormedText;
    var trimmed := WellFormedText(Trim(content, IsSpace));
    if trimmed == [] {
      chunks := [];
    } else if |trimmed| <= MAX_CHUNK_CHARS {
      chunks := [trimmed];
    } else {
      chunks := PackParagraphs(Paragraphs(trimmed));
    }
  }

  function Over(limit: Option<nat>, n: nat): bool {
    limit.Some? && n > limit.value
  }

  /** The inner loop: the chunks of one section, up to the first one over the limit. */
  method AddChunks(before: seq<Piece>, section: Section, contents: seq<Text>, maxChunks: Option<nat>) returns (chunks: seq<Piece>, full: bool)
    requires !Over(maxChunks, |before|)
    ensures full == Over(maxChunks, |before| + |contents|)
    ensures !full ==> chunks == before + Labelled(section, contents, |before|)
    ensures full ==> |chunks| == maxChunks.value + 1 && chunks <= before + Labelled(section, contents, |before|)
  {
    chunks := before;
    ghost var all := before + Labelled(section, contents, |before|);
    for i := 0 to |contents|
      invariant |chunks| == |before| + i && chunks == all[..|before| + i] && !Over(maxChunks, |chunks|)
    {
      chunks := chunks + [Piece(section.sectionId, section.headingPath, |chunks|, contents[i])];
      assert chunks == all[..|before| + i + 1];
      if Over(maxChunks, |chunks|) {
        return chunks, true;
      }
    }
    full := false;
  }

  lemma {:induction false} PrefixOfPieces(t: Text, k: nat, n: nat)
    requires k <= n <= SectionCount(t)
    ensures PiecesUpTo(t, k) <= PiecesUpTo(t, n)
    decreases n - k
  {
    hide Sections, PiecesAt;
    if k < n { PrefixOfPieces(t, k, n - 1); }
  }

  lemma SectionStep(t: Text, k: nat)
    requires k < SectionCount(t)
    ensures PiecesUpTo(t, k + 1) == PiecesUpTo(t, k) + Labelled(Sections(t)[k], SplitSectionContent(SectionContent(t, k)), |PiecesUpTo(t, k)|)
    ensures PiecesUpTo(t, k + 1) <= Pieces(t)
  {
    hide Sections, SplitSectionContent, SectionContent, Labelled;
    PrefixOfPieces(t, k + 1, SectionCount(t));
  }

  method ChunkMarkdownDocumentWithStats(markdown: Text, maxSections: Option<nat>, maxChunks: Option<nat>)
    returns (chunks: seq<Piece>, sectionCount: nat)
    ensures sectionCount == SectionCount(markdown)
    ensures maxSections.Some? && sectionCount > maxSections.value ==> chunks == []
    ensures (maxSections == None || sectionCount <= maxSections.value) && (maxChunks == None || |Pieces(markdown)| <= maxChunks.value) ==>
      chunks == Pieces(markdown)
    ensures (maxSections == None || sectionCount <= maxSections.value) && maxChunks.Some? && |Pieces(markdown)| > maxChunks.value ==>
      chunks == Pieces(markdown)[..maxChunks.value + 1]
  {
    hide SplitSectionContent, MarkdownSections.ParseMarkdownSections, PiecesUpTo, PiecesAt, SectionContent, Labelled;
    var sections := Parser.ParseMarkdownSections(markdown, UNHASHED);
    chunks, sectionCount := [], |sections|;
    NoPieces(markdown);
    if Over(maxSections, |sections|) {
      return;
    }
    for k := 0 to |sections|
      invariant chunks == PiecesUpTo(markdown, k) && chunks <= Pieces(markdown) && !Over(maxChunks, |chunks|)
    {
      SectionStep(markdown, k);
      var contents := SplitIntoChunks(SectionContent(markdown, k));
      var full;
      chunks, full := AddChunks(chunks, sections[k], contents, maxChunks);
      if full {
        return;
      }
    }
  }

  lemma NoPieces(t: Text)
    ensures PiecesUpTo(t, 0) == []
  {}
}
