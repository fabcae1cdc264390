/** How a section is packed into chunks, and which section every chunk of a document names. */
module ChunkingPacking {
  import opened Wrappers
  import opened Lines
  import opened Utf16
  import opened MarkdownSections
  import opened SectionTheorems
  import opened Chunking
  import opened ChunkingTheorems

  // ----- blocks of paragraphs -----

  /** One chunk of whole paragraphs, or a paragraph on its own with the places where it is cut. */
  datatype Block = Packed(paragraphs: seq<Text>) | Sliced(paragraph: Text, cuts: seq<nat>)

  /** The paragraphs with an empty line between them. */
  function Paged(ps: seq<Text>): Text
    requires ps != []
  {
    if |ps| == 1 then ps[0] else Paged(ps[..|ps| - 1]) + [10, 10] + ps[|ps| - 1]
  }

  /** Cuts from the start to the end, 1400 units apart, or 1399 where the cut would part a surrogate pair; the last piece is what is left. */
  predicate Cuts(p: Text, cuts: seq<nat>) {
    && cuts != [] && cuts[0] == 0 && cuts[|cuts| - 1] == |p|
    && (forall i :: 0 <= i < |cuts| ==> cuts[i] <= |p|)
    && (forall i :: 0 <= i < |cuts| - 1 ==> CutTo(p, cuts[i], cuts[i + 1]))
  }

  predicate CutTo(p: Text, from: nat, to: nat) {
    && from < to <= |p|
    && if |p| - from <= 1400 then to == |p|
       else if 0xD800 <= p[from + 1399] <= 0xDBFF && 0xDC00 <= p[from + 1400] <= 0xDFFF then to == from + 1399
       else to == from + 1400
  }

  /** The pieces between the cuts, trimmed, without the blank ones. */
  function Pieced(p: Text, cuts: seq<nat>): seq<Text> {
    if |cuts| < 2 || !(cuts[0] <= cuts[1] <= |p|) then []
    else
      var piece := Trim(p[cuts[0]..cuts[1]], IsSpace);
      (if piece == [] then [] else [piece]) + Pieced(p, cuts[1..])
  }

  predicate IsBlock(b: Block) {
    match b
    case Packed(ps) => ps != [] && |Paged(ps)| <= 1400
    case Sliced(p, cuts) => p != [] && Cuts(p, cuts)
  }

  function Held(b: Block): seq<Text> {
    match b
    case Packed(ps) => ps
    case Sliced(p, _) => [p]
  }

  function Made(b: Block): seq<Text>
    requires IsBlock(b)
  {
    match b
    case Packed(ps) => [Paged(ps)]
    case Sliced(p, cuts) => Pieced(p, cuts)
  }

  predicate AreBlocks(bs: seq<Block>) {
    forall i :: 0 <= i < |bs| ==> IsBlock(bs[i])
  }

  function AllHeld(bs: seq<Block>): seq<Text> {
    if bs == [] then [] else Held(bs[0]) + AllHeld(bs[1..])
  }

  function AllMade(bs: seq<Block>): seq<Text>
    requires AreBlocks(bs)
  {
    if bs == [] then [] else Made(bs[0]) + AllMade(bs[1..])
  }

  /**
   A packed chunk ends only before a paragraph that does not fit into it, and that one stands alone, even
   if it is short; otherwise only a paragraph that is too long for a chunk stands alone.
   */
  predicate Greedy(before: Option<Block>, bs: seq<Block>)
    requires AreBlocks(bs) && (before.Some? ==> IsBlock(before.value))
    decreases |bs|
  {
    bs != [] ==> Follows(before, bs[0]) && Greedy(Some(bs[0]), bs[1..])
  }

  predicate Follows(before: Option<Block>, b: Block)
    requires IsBlock(b) && (before.Some? ==> IsBlock(before.value))
  {
    match before
    case Some(Packed(ps)) => b.Sliced? && |Paged(ps)| + 2 + |b.paragraph| > 1400
    case _ => b.Sliced? ==> |b.paragraph| > 1400
  }

  // ----- slices -----

  lemma {:induction false} SlicesAreCut(p: Text, index: nat) returns (cuts: seq<nat>)
    requires index <= |p|
    ensures cuts != [] && cuts[0] == index && cuts[|cuts| - 1] == |p|
    ensures forall i :: 0 <= i < |cuts| ==> cuts[i] <= |p|
    ensures forall i :: 0 <= i < |cuts| - 1 ==> CutTo(p, cuts[i], cuts[i + 1])
    ensures Slices(p, index) == Pieced(p, cuts)
    decreases |p| - index
  {
    hide Trim;
    if index == |p| {
      cuts := [index];
    } else {
      var rest := SlicesAreCut(p, CutAt(p, index));
      cuts := [index] + rest;
      CutIs(p, index);
      hide CutAt, CutTo;
      assert cuts[1..] == rest;
    }
  }

  lemma CutIs(p: Text, index: nat)
    requires index < |p|
    ensures CutTo(p, index, CutAt(p, index))
  {}

  // ----- packing -----

  lemma PagedMore(ps: seq<Text>, p: Text)
    requires ps != []
    ensures Paged(ps + [p]) == Paged(ps) + [10, 10] + p
  {
    assert (ps + [p])[..|ps|] == ps;
  }

  lemma BlocksCons(b: Block, bs: seq<Block>)
    requires IsBlock(b) && AreBlocks(bs)
    ensures AreBlocks([b] + bs) && AllHeld([b] + bs) == Held(b) + AllHeld(bs) && AllMade([b] + bs) == Made(b) + AllMade(bs)
  {
    hide IsBlock;
    assert ([b] + bs)[1..] == bs;
  }

  /** What is pending: nothing, or the chunk of these paragraphs. */
  predicate Pending(current: Text, ps: seq<Text>) {
    if ps == [] then current == [] else current == Paged(ps) && current != [] && |current| <= 1400
  }

  lemma NextPending(current: Text, ps: seq<Text>, p: Text)
    requires Pending(current, ps) && p != []
    ensures |Candidate(current, p)| <= 1400 ==> Pending(Candidate(current, p), ps + [p])
    ensures |Candidate(current, p)| == if ps == [] then |p| else |current| + 2 + |p|
  {
    if ps != [] { PagedMore(ps, p); }
  }

  /** The blocks of the pending paragraphs and those that are left. */
  ghost predicate Packs(bs: seq<Block>, pending: seq<Text>, ps: seq<Text>, chunks: seq<Text>) {
    && AreBlocks(bs) && Greedy(None, bs) && AllHeld(bs) == pending + ps && AllMade(bs) == chunks
    && (pending != [] ==> bs != [] && bs[0].Packed?)
  }

  lemma PacksNothing(current: Text, pending: seq<Text>) returns (bs: seq<Block>)
    requires Pending(current, pending)
    ensures Packs(bs, pending, [], Pack([], current))
  {
    bs := if pending == [] then [] else [Packed(pending)];
    NoBlocks();
    if pending != [] {
      BlocksCons(Packed(pending), []);
      GreedyCons(None, Packed(pending), []);
    }
  }

  lemma NoBlocks()
    ensures AreBlocks([]) && AllHeld([]) == [] && AllMade([]) == [] && forall before: Option<Block> :: (before.Some? ==> IsBlock(before.value)) ==> Greedy(before, [])
  {}

  lemma GreedyCons(before: Option<Block>, b: Block, bs: seq<Block>)
    requires IsBlock(b) && AreBlocks(bs) && (before.Some? ==> IsBlock(before.value))
    ensures AreBlocks([b] + bs) && Greedy(before, [b] + bs) == (Follows(before, b) && Greedy(Some(b), bs))
  {
    BlocksCons(b, bs);
    hide IsBlock, Follows;
    assert ([b] + bs)[1..] == bs;
  }

  lemma AfterSliced(b: Block, bs: seq<Block>)
    requires IsBlock(b) && b.Sliced? && AreBlocks(bs)
    ensures Greedy(Some(b), bs) == Greedy(None, bs)
  {}

  /** A paragraph that stands alone, with nothing in front of it or a chunk that it does not fit into. */
  lemma PacksSliced(later: seq<Block>, before: Option<Block>, p: Text, rest: seq<Text>, chunks: seq<Text>) returns (bs: seq<Block>)
    requires p != [] && Packs(later, [], rest, chunks) && (before.Some? ==> IsBlock(before.value))
    requires match before case Some(Packed(ps)) => |Paged(ps)| + 2 + |p| > 1400 case _ => |p| > 1400
    ensures AreBlocks(bs) && Greedy(before, bs) && AllHeld(bs) == [p] + rest && AllMade(bs) == Slices(p, 0) + chunks
  {
    hide Slices, Pieced, Paged;
    var cuts := SlicesAreCut(p, 0);
    var alone := Sliced(p, cuts);
    bs := [alone] + later;
    BlocksCons(alone, later);
    AfterSliced(alone, later);
    GreedyCons(before, alone, later);
    assert Greedy(Some(alone), later) && Follows(before, alone);
  }

  /** A paragraph that does not fit: the pending ones are a chunk, and it stands alone. */
  lemma PacksAlone(later: seq<Block>, current: Text, pending: seq<Text>, p: Text, rest: seq<Text>, chunks: seq<Text>) returns (bs: seq<Block>)
    requires Pending(current, pending) && p != [] && Packs(later, [], rest, chunks)
    requires (if pending == [] then |p| else |current| + 2 + |p|) > 1400
    ensures Packs(bs, pending, [p] + rest, NonEmpty(current) + Slices(p, 0) + chunks)
  {
    hide Slices, Pieced, Greedy, AllHeld, AllMade, Cuts;
    if pending == [] {
      bs := PacksSliced(later, None, p, rest, chunks);
      assert NonEmpty(current) + Slices(p, 0) + chunks == Slices(p, 0) + chunks;
    } else {
      var chunk := Packed(pending);
      var tail := PacksSliced(later, Some(chunk), p, rest, chunks);
      bs := [chunk] + tail;
      PendingChunk(current, pending);
      BlocksCons(chunk, tail);
      GreedyCons(None, chunk, tail);
      hide Paged, NonEmpty;
      assert pending + ([p] + rest) == Held(chunk) + AllHeld(tail);
      assert NonEmpty(current) + Slices(p, 0) + chunks == NonEmpty(current) + (Slices(p, 0) + chunks);
    }
  }

  lemma PendingChunk(current: Text, pending: seq<Text>)
    requires Pending(current, pending) && pending != []
    ensures Made(Packed(pending)) == NonEmpty(current)
  {}

  lemma PacksMoved(bs: seq<Block>, pending: seq<Text>, p: Text, ps: seq<Text>, chunks: seq<Text>)
    requires Packs(bs, pending + [p], ps, chunks)
    ensures Packs(bs, pending, [p] + ps, chunks)
  {
    hide AreBlocks, Greedy, AllHeld, AllMade;
    assert pending + [p] + ps == pending + ([p] + ps);
  }

  lemma {:induction false} PackIsGreedy(ps: seq<Text>, current: Text, pending: seq<Text>) returns (bs: seq<Block>)
    requires Pending(current, pending) && forall i :: 0 <= i < |ps| ==> ps[i] != []
    ensures Packs(bs, pending, ps, Pack(ps, current))
    decreases |ps|
  {
    hide Slices, Candidate, Packs, Pending, NonEmpty;
    if ps == [] {
      bs := PacksNothing(current, pending);
    } else {
      var p, rest := ps[0], ps[1..];
      assert ps == [p] + rest;
      NextPending(current, pending, p);
      if |Candidate(current, p)| <= 1400 {
        bs := PackIsGreedy(rest, Candidate(current, p), pending + [p]);
        PacksMoved(bs, pending, p, rest, Pack(ps, current));
      } else {
        NothingPending();
        var later := PackIsGreedy(rest, [], []);
        bs := PacksAlone(later, current, pending, p, rest, Pack(rest, []));
      }
    }
  }

  lemma NothingPending()
    ensures Pending([], [])
  {}

  // ----- the paragraphs of a trimmed text -----

  lemma {:induction false} NoEmptyParagraph(t: Text)
    requires t != [] && t[0] != NEWLINE && t[|t| - 1] != NEWLINE
    ensures forall i :: 0 <= i < |Paragraphs(t)| ==> Paragraphs(t)[i] != []
    decreases |t|
  {
    hide Paragraphs;
    var n := ParagraphsShape(t);
    assert n > 0 by { assert RunLength(t, 0, NEWLINE) == 0; }
    if n < |t| {
      var next := n + RunLength(t, n, NEWLINE);
      RunStops(t, n);
      RunIs(t, n);
      LastIsEnd(t, n);
      NoEmptyParagraph(t[next..]);
      forall i | 0 <= i < |Paragraphs(t)| ensures Paragraphs(t)[i] != [] {
        if i > 0 { assert Paragraphs(t)[i] == Paragraphs(t[next..])[i - 1]; }
      }
    } else {
      forall i | 0 <= i < |Paragraphs(t)| ensures Paragraphs(t)[i] != [] {}
    }
  }

  lemma LastIsEnd(t: Text, n: nat)
    requires n < |t| && t[|t| - 1] != NEWLINE
    ensures n + RunLength(t, n, NEWLINE) < |t|
  {
    RunIs(t, n);
  }

  lemma {:induction false} RunStops(t: Text, i: nat)
    requires i <= |t|
    ensures var end := i + RunLength(t, i, NEWLINE); end < |t| ==> t[end] != NEWLINE
    decreases |t| - i
  {
    if i < |t| && t[i] == NEWLINE { RunStops(t, i + 1); }
  }

  /**
   A section is one chunk if it has at most 1400 units; otherwise its paragraphs are packed greedily, and
   cut 1400 units apart where they stand alone.
   */
  lemma SectionIsPacked(content: Text) returns (bs: seq<Block>)
    ensures var trimmed := WellFormedText(Trim(content, IsSpace));
      && (|trimmed| <= 1400 ==> SplitSectionContent(content) == if trimmed == [] then [] else [trimmed])
      && (|trimmed| > 1400 ==> AreBlocks(bs) && Greedy(None, bs) && AllHeld(bs) == Paragraphs(trimmed) && AllMade(bs) == SplitSectionContent(content))
  {
    var trimmed := WellFormedText(Trim(content, IsSpace));
    bs := [];
    if |trimmed| > 1400 {
      TrimmedEnds(content);
      hide WellFormedText, Paragraphs, Pack, Trim, Pending;
      NoEmptyParagraph(trimmed);
      NothingPending();
      bs := PackIsGreedy(Paragraphs(trimmed), [], []);
      assert [] + Paragraphs(trimmed) == Paragraphs(trimmed);
    }
  }

  lemma TrimmedEnds(content: Text)
    ensures var t := WellFormedText(Trim(content, IsSpace)); t != [] ==> t[0] != NEWLINE && t[|t| - 1] != NEWLINE
  {
    hide Trim;
  }

  // ----- the section a chunk names -----

  /** The pieces from `a` to `b` are the chunks of this section: they name it, and hold its lines. */
  ghost predicate ChunksOfSection(t: Text, s: Section, a: nat, b: nat) {
    && a <= b <= |Pieces(t)| && 1 <= s.lineStart <= s.lineEnd <= |Split(t, NEWLINE)|
    && (forall i :: a <= i < b ==> Pieces(t)[i].sectionId == s.sectionId && Pieces(t)[i].headingPath == s.headingPath)
    && Ink(Contents(Pieces(t)[a..b])) == NonSpace(WellFormedText(Join(Split(t, NEWLINE)[s.lineStart - 1..s.lineEnd], NEWLINE)))
  }

  lemma RunOfPieces(all: seq<Piece>, before: seq<Piece>, s: Section, contents: seq<Text>)
    requires before + Labelled(s, contents, |before|) <= all
    ensures Contents(all[|before|..|before| + |contents|]) == contents
    ensures forall i :: |before| <= i < |before| + |contents| ==> all[i].sectionId == s.sectionId && all[i].headingPath == s.headingPath
  {
    var labelled := Labelled(s, contents, |before|);
    assert forall i :: 0 <= i < |contents| ==> all[|before| + i] == labelled[i];
    assert all[|before|..|before| + |contents|] == labelled;
  }

  lemma SectionPieces(t: Text, k: nat)
    requires k < SectionCount(t)
    ensures ChunksOfSection(t, Sections(t)[k], |PiecesUpTo(t, k)|, |PiecesUpTo(t, k + 1)|)
  {
    hide Sections, SplitSectionContent, PiecesUpTo, Pieces, Ink, NonSpace, WellFormedText, Split, Join, Contents;
    var s, contents := Sections(t)[k], SplitSectionContent(SectionContent(t, k));
    SectionsFit(t);
    assert s in Sections(t);
    SectionStep(t, k);
    SectionKeepsInk(SectionContent(t, k));
    RunOfPieces(Pieces(t), PiecesUpTo(t, k), s, contents);
  }

  /** The chunks of a document fall into consecutive runs, one for each section in order, which name the section and hold its lines. */
  lemma PiecesNameTheirSections(t: Text) returns (at: seq<nat>)
    ensures |at| == |Sections(t)| + 1 && at[0] == 0 && at[|Sections(t)|] == |Pieces(t)|
    ensures forall k :: 0 <= k < |Sections(t)| ==> ChunksOfSection(t, Sections(t)[k], at[k], at[k + 1])
  {
    hide PiecesUpTo, Sections, ChunksOfSection;
    at := seq(SectionCount(t) + 1, k requires 0 <= k <= SectionCount(t) => |PiecesUpTo(t, k)|);
    NoPieces(t);
    forall k | 0 <= k < SectionCount(t) ensures ChunksOfSection(t, Sections(t)[k], at[k], at[k + 1]) { SectionPieces(t, k); }
  }
}
