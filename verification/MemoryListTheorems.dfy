/** Memory lists: the round trip through markdown, and adding twice. */
module MemoryListTheorems {
  import opened Wrappers
  import opened Lines
  import opened MemoryLists
  import opened MemoryListText
  import opened MemoryListLines

  // ----- feeding lines -----

  lemma {:induction false} FeedConcat(listId: string, items: seq<Item>, a: seq<string>, b: seq<string>, digest: Digest)
    ensures FeedAll(listId, items, a + b, digest) == FeedAll(listId, FeedAll(listId, items, a, digest), b, digest)
    decreases |a|
  {
    hide Feed;
    if a == [] {
      assert a + b == b;
    } else {
      assert (a + b)[1..] == a[1..] + b;
      FeedConcat(listId, Feed(listId, items, a[0], digest), a[1..], b, digest);
    }
  }

  lemma FeedOne(listId: string, items: seq<Item>, line: string, digest: Digest)
    ensures FeedAll(listId, items, [line], digest) == Feed(listId, items, line, digest)
    ensures FeedAll(listId, items, [], digest) == items
  {
    hide Feed;
    assert [line][1..] == [];
    FedAll(listId, Feed(listId, items, line, digest), digest);
  }

  // ----- the printed text, line by line -----

  lemma BlankTail(s: string, n: nat)
    requires n <= |s| && AllBlank(s[n..], Space)
    ensures forall k :: n <= k < |s| ==> Space(s[k])
  {
    hide Space;
    forall k | n <= k < |s| ensures Space(s[k]) { assert s[k] == s[n..][k - n]; }
  }

  lemma TrimEndKeeps(s: string, i: nat)
    requires i < |s| && !Space(s[i])
    ensures |TrimEnd(s, Space)| > i && s[..i + 1] <= TrimEnd(s, Space)
  {
    TrimEndCut(s, Space);
    var n := |TrimEnd(s, Space)|;
    BlankTail(s, n);
    hide Space;
  }

  lemma {:induction false} TrimEndConcat(s: string, t: string)
    requires TrimEnd(t, Space) != []
    ensures TrimEnd(s + t, Space) == s + TrimEnd(t, Space)
  {
    var c := t[|t| - 1];
    assert (s + t)[|s + t| - 1] == c;
    if Space(c) {
      assert (s + t)[..|s + t| - 1] == s + t[..|t| - 1];
      TrimEndConcat(s, t[..|t| - 1]);
    }
  }

  /** Trimming the end of joined lines trims the last of them, if anything is left of it. */
  lemma TrimEndJoin(front: seq<string>, last: string)
    requires front != [] && TrimEnd(last, Space) != []
    ensures TrimEnd(Join(front + [last], '\n'), Space) == Join(front + [TrimEnd(last, Space)], '\n')
  {
    hide Join;
    JoinAppend(front, [last], '\n');
    JoinAppend(front, [TrimEnd(last, Space)], '\n');
    JoinOne(last);
    JoinOne(TrimEnd(last, Space));
    TrimEndConcat(Join(front, '\n') + ['\n'], last);
  }

  lemma JoinOne(s: string)
    ensures Join([s], '\n') == s
  {}

  lemma TrimEndBreak(s: string)
    ensures TrimEnd(s + "\n", Space) == TrimEnd(s, Space)
  {
    assert (s + "\n")[..|s|] == s;
  }

  function TrimLast(rs: seq<string>): seq<string> {
    if rs == [] then [] else rs[..|rs| - 1] + [TrimEnd(rs[|rs| - 1], Space)]
  }

  /** The lines that end up in the file: the last one loses trailing white space. */
  function FileLines(list: MemoryList): seq<string> {
    if list.items == [] then HeaderLines(list)[..3] else TrimLast(HeaderLines(list) + RenderItems(list.items))
  }

  lemma MetaStays(line: string)
    requires IsMetaLine(line)
    ensures TrimEnd(line, Space) != [] && TrimEnd(line, Space)[0] == ' '
  {
    assert line[2] == "  - "[2];
    TrimEndKeeps(line, 2);
    assert line[0] == "  - "[0];
  }

  /** One line that starts with a dash, then metadata lines. */
  predicate ItemLines(rs: seq<string>) {
    rs != [] && "-" <= rs[0] && forall i :: 1 <= i < |rs| ==> IsMetaLine(rs[i])
  }

  lemma LastLineStays(rs: seq<string>)
    requires ItemLines(rs)
    ensures TrimEnd(rs[|rs| - 1], Space) != []
  {
    hide IsMetaLine, TrimEnd;
    if |rs| == 1 { DashStays(rs[0]); } else { MetaStays(rs[|rs| - 1]); }
  }

  lemma DashStays(line: string)
    requires line != [] && line[0] == '-'
    ensures TrimEnd(line, Space) != []
  {
    TrimEndKeeps(line, 0);
  }

  lemma ItemLinesMore(rs: seq<string>, ms: seq<string>)
    requires ItemLines(rs) && forall i :: 0 <= i < |ms| ==> IsMetaLine(ms[i])
    ensures ItemLines(rs + ms)
  {
    hide IsMetaLine;
  }

  /** An item prints as its own line and then metadata lines. */
  lemma ItemLinesAre(x: Item)
    ensures ItemLines(RenderItem(x)) && RenderItem(x)[0] == ItemLine(MarkOf(x), EscapeLine(x.item), x.id)
  {
    hide ItemLine, EscapeLine, IsMetaLine, MetaLines, Stamp, Escaped, ItemLines;
    MetaLinesAre("added", Stamp(x.addedAt));
    MetaLinesAre("source", Escaped(x.source));
    MetaLinesAre("notes", Escaped(x.notes));
    MetaLinesAre("archived", Stamp(x.archivedAt));
    MetaLinesAre("archive_reason", Escaped(x.archiveReason));
    ItemLineIs(MarkOf(x), EscapeLine(x.item), x.id);
    var r0 := [ItemLine(MarkOf(x), EscapeLine(x.item), x.id)];
    FirstIsItem(r0);
    var r1 := r0 + MetaLines("added", Stamp(x.addedAt));
    ItemLinesMore(r0, MetaLines("added", Stamp(x.addedAt)));
    var r2 := r1 + MetaLines("source", Escaped(x.source));
    ItemLinesMore(r1, MetaLines("source", Escaped(x.source)));
    var r3 := r2 + MetaLines("notes", Escaped(x.notes));
    ItemLinesMore(r2, MetaLines("notes", Escaped(x.notes)));
    var r4 := r3 + MetaLines("archived", Stamp(x.archivedAt));
    ItemLinesMore(r3, MetaLines("archived", Stamp(x.archivedAt)));
    ItemLinesMore(r4, MetaLines("archive_reason", Escaped(x.archiveReason)));
  }

  lemma FirstIsItem(rs: seq<string>)
    requires |rs| == 1 && "-" <= rs[0]
    ensures ItemLines(rs)
  {}

  lemma MetaLinesAre(key: string, o: Option<string>)
    ensures |MetaLines(key, o)| <= 1 && forall i :: 0 <= i < |MetaLines(key, o)| ==> IsMetaLine(MetaLines(key, o)[i])
  {
    if o.Some? { MetaLineIs(key, o.value); }
  }

  lemma ItemLinesSome(rs: seq<string>)
    requires ItemLines(rs)
    ensures rs != []
  {}

  lemma LastOf(a: seq<string>, rs: seq<string>) returns (front: seq<string>, last: string)
    requires ItemLines(rs)
    ensures a + rs == front + [last] && TrimEnd(last, Space) != []
  {
    hide TrimEnd;
    LastLineStays(rs);
    front, last := a + rs[..|rs| - 1], rs[|rs| - 1];
  }

  lemma ItemsEnd(items: seq<Item>) returns (front: seq<string>, last: string)
    requires items != []
    ensures RenderItems(items) == front + [last] && TrimEnd(last, Space) != []
  {
    hide RenderItem, ItemLines, TrimEnd;
    ItemLinesAre(items[|items| - 1]);
    front, last := LastOf(RenderItems(items[..|items| - 1]), RenderItem(items[|items| - 1]));
  }

  lemma JoinBreak(file: seq<string>)
    requires file != []
    ensures Join(file + [""], '\n') == Join(file, '\n') + "\n"
  {
    hide Join;
    JoinAppend(file, [""], '\n');
    JoinOne("");
    assert Join(file, '\n') + ['\n'] + "" == Join(file, '\n') + "\n";
  }

  lemma HeaderIsFour(list: MemoryList)
    ensures var h := ["# " + list.title, "", MarkerForList(list.listId)]; HeaderLines(list) == h + [""] && HeaderLines(list)[..3] == h
    ensures TrimEnd(MarkerForList(list.listId), Space) == MarkerForList(list.listId) != []
  {
    var m := MarkerForList(list.listId);
    assert m[|m| - 1] == '>';
    assert HeaderLines(list)[..3] == ["# " + list.title, "", m];
  }

  lemma EmptyFile(list: MemoryList)
    requires list.items == []
    ensures FileLines(list) != [] && RenderList(list) == Join(FileLines(list), '\n') + "\n"
  {
    HeaderIsFour(list);
    var m := MarkerForList(list.listId);
    var h := ["# " + list.title, "", m];
    hide HeaderLines, MarkerForList, Join, TrimEnd;
    assert HeaderLines(list) + RenderItems([]) == h + [""];
    JoinBreak(h);
    TrimEndBreak(Join(h, '\n'));
    TrimEndJoin(["# " + list.title, ""], m);
    assert ["# " + list.title, ""] + [m] == h;
  }

  lemma TrimmedLast(lines: seq<string>, front: seq<string>, last: string)
    requires lines == front + [last] && front != [] && TrimEnd(last, Space) != []
    ensures TrimEnd(Join(lines, '\n'), Space) == Join(TrimLast(lines), '\n')
  {
    hide Join, TrimEnd;
    TrimEndJoin(front, last);
    assert lines[..|lines| - 1] == front;
  }

  lemma FullFile(list: MemoryList)
    requires list.items != []
    ensures FileLines(list) != [] && RenderList(list) == Join(FileLines(list), '\n') + "\n"
  {
    HeaderIsFour(list);
    hide HeaderLines, MarkerForList, Join, TrimEnd, RenderItems;
    var lines := HeaderLines(list) + RenderItems(list.items);
    var front, last := ItemsEnd(list.items);
    TrimmedLast(lines, HeaderLines(list) + front, last);
  }

  /** The file is its lines, each ended by a line break. */
  lemma FileIsLines(list: MemoryList)
    ensures FileLines(list) != [] && RenderList(list) == Join(FileLines(list) + [""], '\n')
  {
    if list.items == [] { EmptyFile(list); } else { FullFile(list); }
    hide *;
    JoinBreak(FileLines(list));
  }

  /** Reading the file back line by line: the printed lines and an empty one after the last break. */
  lemma FileSplits(list: MemoryList)
    requires Parts(FileLines(list), '\n')
    ensures Split(RenderList(list), '\n') == FileLines(list) + [""]
  {
    hide FileLines, RenderList, Split, Join;
    FileIsLines(list);
    var all := FileLines(list) + [""];
    forall p | p in all ensures '\n' !in p {
      assert p in FileLines(list) || p == "";
    }
    SplitJoin(all, '\n');
  }

  // ----- item texts -----

  function Texts(items: seq<Item>): (r: seq<string>)
    ensures |r| == |items| && forall i :: 0 <= i < |r| ==> r[i] == items[i].item
  {
    seq(|items|, i requires 0 <= i < |items| => items[i].item)
  }

  /** The item text a line adds to the list, if it is an item line. */
  function LineText(line: string): seq<string> {
    if MatchItem(line).Some? then [EscapeLine(MatchItem(line).value.text)] else []
  }

  function LineTexts(lines: seq<string>): seq<string>
    decreases |lines|, 1
  {
    if lines == [] then [] else LineTextsFrom(lines)
  }

  function LineTextsFrom(lines: seq<string>): seq<string>
    requires lines != []
    decreases |lines|, 0
  {
    LineText(lines[0]) + LineTexts(lines[1..])
  }

  lemma {:induction false} LineTextsConcat(a: seq<string>, b: seq<string>)
    ensures LineTexts(a + b) == LineTexts(a) + LineTexts(b)
  {
    hide LineText;
    if a == [] {
      assert a + b == b;
    } else {
      assert (a + b)[1..] == a[1..] + b;
      LineTextsConcat(a[1..], b);
    }
  }

  lemma FeedText(listId: string, items: seq<Item>, line: string, digest: Digest)
    ensures Texts(Feed(listId, items, line, digest)) == Texts(items) + LineText(line)
  {
    hide MatchItem, MatchMetadata, SafeItemId, EscapeLine;
  }

  lemma {:induction false} FeedTexts(listId: string, items: seq<Item>, lines: seq<string>, digest: Digest)
    ensures Texts(FeedAll(listId, items, lines, digest)) == Texts(items) + LineTexts(lines)
    decreases |lines|
  {
    hide Feed, LineText, Texts;
    if lines != [] {
      FeedText(listId, items, lines[0], digest);
      FeedTexts(listId, Feed(listId, items, lines[0], digest), lines[1..], digest);
    }
  }

  predicate Inert(line: string) {
    line == [] || line[0] != '-'
  }

  lemma NotDashed(line: string)
    requires Inert(line)
    ensures LineText(line) == []
  {
    MetaIsNoItem(line);
  }

  lemma {:induction false} MetaTexts(ms: seq<string>)
    requires forall i :: 0 <= i < |ms| ==> Inert(ms[i])
    ensures LineTexts(ms) == []
  {
    hide LineText, Inert;
    if ms != [] {
      NotDashed(ms[0]);
      MetaTexts(ms[1..]);
    }
  }

  lemma TextOfItemLine(mark: char, t: string, id: string)
    requires Clean(t) && IsItemId(id) && mark in " xX"
    ensures LineText(ItemLine(mark, t, id)) == [t]
  {
    if t == [] {
      NoTextMatches(mark, id);
      CommentEscapes(id);
    } else {
      ItemLineMatches(mark, t, id);
      CleanIsFixed(t);
    }
    hide MatchItem, EscapeLine, ItemLine, Clean, IsItemId;
  }

  lemma MetaInert(line: string)
    requires IsMetaLine(line)
    ensures Inert(line) && Inert(TrimEnd(line, Space))
  {
    MetaStays(line);
    assert line[0] == "  - "[0];
  }

  lemma MetaHeads(rs: seq<string>)
    requires forall i :: 0 <= i < |rs| ==> IsMetaLine(rs[i])
    ensures LineTexts(rs) == [] && LineTexts(TrimLast(rs)) == []
  {
    hide LineTexts, TrimEnd, IsMetaLine, Inert;
    forall i | 0 <= i < |rs| ensures Inert(rs[i]) && Inert(TrimEnd(rs[i], Space)) { MetaInert(rs[i]); }
    MetaTexts(rs);
    MetaTexts(TrimLast(rs));
  }

  lemma TrimLastRest(rs: seq<string>)
    requires rs != []
    ensures TrimLast(rs) == if |rs| > 1 then [rs[0]] + TrimLast(rs[1..]) else [TrimEnd(rs[0], Space)]
  {
    hide TrimEnd;
  }

  lemma FirstText(line: string, rest: seq<string>)
    ensures LineTexts([line] + rest) == LineText(line) + LineTexts(rest)
  {
    hide LineText;
    assert ([line] + rest)[1..] == rest;
  }

  lemma ItemTexts(rs: seq<string>, t: string)
    requires ItemLines(rs) && LineText(rs[0]) == [t] && TrimEnd(rs[0], Space) == rs[0]
    ensures LineTexts(rs) == [t] && LineTexts(TrimLast(rs)) == [t]
  {
    hide LineText, TrimEnd, IsMetaLine, TrimLast, LineTexts;
    assert rs == [rs[0]] + rs[1..];
    MetaHeads(rs[1..]);
    TrimLastRest(rs);
    FirstText(rs[0], rs[1..]);
    FirstText(rs[0], TrimLast(rs[1..]));
    assert |rs| == 1 ==> rs == [rs[0]];
  }

  lemma ItemLineEnds(mark: char, t: string, id: string)
    ensures TrimEnd(ItemLine(mark, t, id), Space) == ItemLine(mark, t, id)
  {
    var s := ItemLine(mark, t, id);
    assert s[|s| - 1] == '>';
  }

  lemma RenderedText(x: Item)
    requires IsItemId(x.id)
    ensures LineTexts(RenderItem(x)) == [EscapeLine(x.item)] && LineTexts(TrimLast(RenderItem(x))) == [EscapeLine(x.item)]
  {
    ItemLinesAre(x);
    EscapedIsClean(x.item);
    TextOfItemLine(MarkOf(x), EscapeLine(x.item), x.id);
    ItemLineEnds(MarkOf(x), EscapeLine(x.item), x.id);
    hide RenderItem, EscapeLine, ItemLine, LineText, LineTexts, TrimLast, ItemLines, Clean, IsItemId, TrimEnd;
    ItemTexts(RenderItem(x), EscapeLine(x.item));
  }

  function EscapedTexts(items: seq<Item>): seq<string>
    decreases |items|, 1
  {
    if items == [] then [] else EscapedToLast(items)
  }

  function EscapedToLast(items: seq<Item>): seq<string>
    requires items != []
    decreases |items|, 0
  {
    EscapedTexts(items[..|items| - 1]) + [EscapeLine(items[|items| - 1].item)]
  }

  predicate ValidIds(items: seq<Item>) {
    forall i :: 0 <= i < |items| ==> IsItemId(items[i].id)
  }

  lemma {:induction false} RenderedTexts(items: seq<Item>)
    requires ValidIds(items)
    ensures LineTexts(RenderItems(items)) == EscapedTexts(items)
  {
    hide RenderItem, EscapeLine, LineTexts, IsItemId;
    if items == [] {
      NoLineTexts();
    } else {
      var x := items[|items| - 1];
      RenderedTexts(items[..|items| - 1]);
      RenderedText(x);
      LineTextsConcat(RenderItems(items[..|items| - 1]), RenderItem(x));
    }
  }

  lemma NoLineTexts()
    ensures LineTexts([]) == []
  {}

  lemma HeaderTexts(list: MemoryList)
    ensures LineTexts(HeaderLines(list)) == [] && LineTexts(HeaderLines(list)[..3]) == [] && LineTexts([""]) == []
  {
    hide LineTexts;
    MetaTexts(HeaderLines(list));
    MetaTexts(HeaderLines(list)[..3]);
    MetaTexts([""]);
  }

  lemma TrimLastConcat(a: seq<string>, rs: seq<string>)
    requires rs != []
    ensures TrimLast(a + rs) == a + TrimLast(rs)
  {
    hide TrimEnd;
  }

  lemma FullTexts(h: seq<string>, front: seq<string>, rs: seq<string>, texts: seq<string>, t: string)
    requires rs != [] && LineTexts(h) == [] && LineTexts(front) == texts && LineTexts(TrimLast(rs)) == [t]
    ensures LineTexts(TrimLast(h + (front + rs))) == texts + [t]
  {
    hide LineTexts, TrimLast, TrimEnd;
    assert h + (front + rs) == (h + front) + rs;
    TrimLastConcat(h + front, rs);
    LineTextsConcat(h + front, TrimLast(rs));
    LineTextsConcat(h, front);
  }

  lemma ItemsSplit(front: seq<Item>, x: Item)
    requires ValidIds(front + [x])
    ensures RenderItems(front + [x]) == RenderItems(front) + RenderItem(x) && EscapedTexts(front + [x]) == EscapedTexts(front) + [EscapeLine(x.item)]
    ensures ValidIds(front) && IsItemId(x.id)
  {
    hide RenderItem, EscapeLine, IsItemId;
    var items := front + [x];
    assert items[..|items| - 1] == front && items[|items| - 1] == x;
    assert forall i :: 0 <= i < |front| ==> front[i] == items[i];
  }

  lemma FileTexts(list: MemoryList)
    requires ValidIds(list.items)
    ensures LineTexts(FileLines(list)) == EscapedTexts(list.items)
  {
    HeaderTexts(list);
    hide HeaderLines, RenderItems, RenderItem, LineTexts, TrimLast, ValidIds, EscapeLine, ItemLines, ItemLine;
    var items := list.items;
    if items != [] {
      var front, x := items[..|items| - 1], items[|items| - 1];
      assert front + [x] == items;
      ItemsSplit(front, x);
      ItemLinesAre(x);
      ItemLinesSome(RenderItem(x));
      RenderedTexts(front);
      RenderedText(x);
      FullTexts(HeaderLines(list), RenderItems(front), RenderItem(x), EscapedTexts(front), EscapeLine(x.item));
    }
  }

  // ----- lists that can be stored -----

  predicate NoBreak(s: string) {
    '\n' !in s
  }

  predicate StampFits(o: Option<string>) {
    o.Some? ==> NoBreak(o.value)
  }

  /** An id of the right form and no line break in what is printed unescaped. */
  predicate SoundItem(x: Item) {
    IsItemId(x.id) && StampFits(x.addedAt) && StampFits(x.archivedAt)
  }

  predicate SoundItems(items: seq<Item>) {
    forall i :: 0 <= i < |items| ==> SoundItem(items[i])
  }

  predicate SoundList(list: MemoryList) {
    NoBreak(list.title) && NoBreak(list.listId) && SoundItems(list.items)
  }

  lemma {:induction false} SingleSpacedNoBreak(s: string)
    requires SingleSpaced(s)
    ensures NoBreak(s)
  {
    if s != [] {
      SingleSpacedNoBreak(s[1..]);
      assert s == [s[0]] + s[1..];
    }
  }

  lemma EscapedNoBreak(s: string)
    ensures NoBreak(EscapeLine(s))
  {
    EscapedIsClean(s);
    hide EscapeLine, SingleSpaced, NoMarker;
    SingleSpacedNoBreak(EscapeLine(s));
  }

  predicate NoBreaks(rs: seq<string>) {
    forall i :: 0 <= i < |rs| ==> NoBreak(rs[i])
  }

  lemma MetaNoBreak(key: string, o: Option<string>)
    requires NoBreak(key) && StampFits(o)
    ensures NoBreaks(MetaLines(key, o))
  {}

  lemma EscapedFits(o: Option<string>)
    ensures StampFits(Escaped(o))
  {
    hide EscapeLine;
    if Present(o) { EscapedNoBreak(o.value); }
  }

  lemma NoBreaksConcat(a: seq<string>, b: seq<string>)
    requires NoBreaks(a) && NoBreaks(b)
    ensures NoBreaks(a + b)
  {
    hide NoBreak;
  }

  lemma ItemLineNoBreak(mark: char, t: string, id: string)
    requires NoBreak(t) && IsItemId(id) && mark != '\n'
    ensures NoBreaks([ItemLine(mark, t, id)])
  {
    ItemIdLetters(id);
    assert NoBreak(id) by { assert forall i :: 0 <= i < |id| ==> id[i] != '\n'; }
    hide IsItemId;
  }

  lemma ItemNoBreaks(x: Item)
    requires SoundItem(x)
    ensures NoBreaks(RenderItem(x))
  {
    hide NoBreaks, MetaLines, ItemLine, EscapeLine, Escaped, Stamp, MarkOf, IsItemId, NoBreak;
    MarkIsNoBreak(x);
    EscapedNoBreak(x.item);
    ItemLineNoBreak(MarkOf(x), EscapeLine(x.item), x.id);
    EscapedFits(x.source);
    EscapedFits(x.notes);
    EscapedFits(x.archiveReason);
    StampFitsToo(x.addedAt);
    StampFitsToo(x.archivedAt);
    KeysHaveNoBreak();
    hide StampFits, SoundItem;
    MetaNoBreak("added", Stamp(x.addedAt));
    MetaNoBreak("source", Escaped(x.source));
    MetaNoBreak("notes", Escaped(x.notes));
    MetaNoBreak("archived", Stamp(x.archivedAt));
    MetaNoBreak("archive_reason", Escaped(x.archiveReason));
    var r0 := [ItemLine(MarkOf(x), EscapeLine(x.item), x.id)];
    var r1 := r0 + MetaLines("added", Stamp(x.addedAt));
    NoBreaksConcat(r0, MetaLines("added", Stamp(x.addedAt)));
    var r2 := r1 + MetaLines("source", Escaped(x.source));
    NoBreaksConcat(r1, MetaLines("source", Escaped(x.source)));
    var r3 := r2 + MetaLines("notes", Escaped(x.notes));
    NoBreaksConcat(r2, MetaLines("notes", Escaped(x.notes)));
    NoBreaksConcat(r3, MetaLines("archived", Stamp(x.archivedAt)));
    NoBreaksConcat(r3 + MetaLines("archived", Stamp(x.archivedAt)), MetaLines("archive_reason", Escaped(x.archiveReason)));
  }

  lemma MarkIsNoBreak(x: Item)
    ensures MarkOf(x) != '\n'
  {}

  lemma StampFitsToo(o: Option<string>)
    requires StampFits(o)
    ensures StampFits(Stamp(o))
  {}

  lemma KeysHaveNoBreak()
    ensures NoBreak("added") && NoBreak("source") && NoBreak("notes") && NoBreak("archived") && NoBreak("archive_reason")
  {}

  lemma {:induction false} ItemsNoBreaks(items: seq<Item>)
    requires SoundItems(items)
    ensures NoBreaks(RenderItems(items))
  {
    hide RenderItem, SoundItem, NoBreak;
    if items != [] {
      ItemsNoBreaks(items[..|items| - 1]);
      ItemNoBreaks(items[|items| - 1]);
      NoBreaksConcat(RenderItems(items[..|items| - 1]), RenderItem(items[|items| - 1]));
    }
  }

  lemma TrimNoBreak(s: string)
    requires NoBreak(s)
    ensures NoBreak(TrimEnd(s, Space))
  {}

  lemma TrimLastNoBreaks(lines: seq<string>)
    requires NoBreaks(lines)
    ensures NoBreaks(TrimLast(lines))
  {
    hide NoBreak;
    if lines != [] { TrimNoBreak(lines[|lines| - 1]); }
  }

  lemma FileNoBreaks(list: MemoryList)
    requires SoundList(list)
    ensures Parts(FileLines(list), '\n')
  {
    HeaderNoBreaks(list);
    hide HeaderLines, SoundItems, NoBreak, RenderItems, TrimLast, Parts;
    ItemsNoBreaks(list.items);
    NoBreaksConcat(HeaderLines(list), RenderItems(list.items));
    TrimLastNoBreaks(HeaderLines(list) + RenderItems(list.items));
    NoBreakParts(FileLines(list));
  }

  lemma HeaderNoBreaks(list: MemoryList)
    requires NoBreak(list.title) && NoBreak(list.listId)
    ensures NoBreaks(HeaderLines(list)) && |HeaderLines(list)| == 4
  {}

  lemma NoBreakParts(rs: seq<string>)
    requires NoBreaks(rs)
    ensures Parts(rs, '\n')
  {}

  /** Item texts survive storage: the parsed texts are the escaped ones, in order. */
  lemma TextsSurvive(list: MemoryList, fallback: string, digest: Digest)
    requires SoundList(list)
    ensures Texts(ParseList(list.listId, fallback, RenderList(list), digest).items) == EscapedTexts(list.items)
  {
    FileNoBreaks(list);
    FileSplits(list);
    SoundIds(list);
    FileTexts(list);
    HeaderTexts(list);
    hide FileLines, RenderList, LineTexts, FeedAll, Split, TitleOf, SoundList, EscapedTexts, HeaderLines, Texts;
    FeedTexts(list.listId, [], FileLines(list) + [""], digest);
    LineTextsConcat(FileLines(list), [""]);
    NoTexts();
  }

  lemma NoTexts()
    ensures Texts([]) == []
  {}

  lemma SoundIds(list: MemoryList)
    requires SoundList(list)
    ensures ValidIds(list.items)
  {}

  // ----- what the parser makes can be stored -----

  lemma SkippedNoBreak(s: string)
    requires NoBreak(s)
    ensures NoBreak(SkipSpace(s))
  {}

  lemma {:induction false} LineEndStops(s: string, i: nat)
    requires i <= |s|
    ensures forall k :: i <= k < LineEnd(s, i) ==> !Terminator(s[k])
    ensures LineEnd(s, i) < |s| ==> Terminator(s[LineEnd(s, i)])
    decreases |s| - i
  {
    if i < |s| && !Terminator(s[i]) { LineEndStops(s, i + 1); }
  }

  lemma TitleLineNoBreak(after: string)
    ensures NoBreak(Trim(after[..LineEnd(after, 0)], Space))
  {
    LineEndStops(after, 0);
    var line := after[..LineEnd(after, 0)];
    assert NoBreak(line);
    hide LineEnd, Trim, Terminator;
    var k, n := TrimIsSlice(line);
  }

  lemma TitleAtNoBreak(s: string, i: nat)
    requires i < |s| && TitleAt(s, i).Some?
    ensures NoBreak(TitleAt(s, i).value)
  {
    hide NoBreak, Trim, TrimStart, LineEnd, Terminator;
    TitleLineNoBreak(SkipSpace(s[i + 1..]));
  }

  lemma {:induction false} TitleNoBreak(s: string, i: nat)
    requires TitleFrom(s, i).Some?
    ensures NoBreak(TitleFrom(s, i).value)
    decreases |s| - i
  {
    hide NoBreak, TitleAt;
    if TitleAt(s, i).Some? { TitleAtNoBreak(s, i); } else { TitleNoBreak(s, i + 1); }
  }

  lemma ValueNoBreak(key: string, s: string)
    ensures NoBreak(s) && MatchValue(key, s).Some? ==> NoBreak(MatchValue(key, s).value.value)
  {
    hide LineEnd, Space;
    if NoBreak(s) { SkippedNoBreak(s); }
  }

  lemma KeyNoBreak(s: string)
    ensures NoBreak(s) && MatchKey(s).Some? ==> NoBreak(MatchKey(s).value.value)
  {
    hide KeyRun, MatchValue;
    var n := KeyRun(s);
    if n < |s| { ValueNoBreak(s[..n], s[n + 1..]); }
  }

  lemma MetadataNoBreak(line: string)
    ensures NoBreak(line) && MatchMetadata(line).Some? ==> NoBreak(MatchMetadata(line).value.value)
  {
    hide MatchKey, Space;
    if NoBreak(line) && MatchMetadata(line).Some? {
      SkippedNoBreak(line[3..]);
      KeyNoBreak(SkipSpace(line[3..]));
    }
  }

  lemma NewItemIsSound(listId: string, m: ItemMatch, digest: Digest)
    requires IsDigest(digest)
    ensures SoundItem(NewItem(listId, m, digest)) && Clean(NewItem(listId, m, digest).item)
  {
    EscapedIsClean(m.text);
    hide EscapeLine, Clean;
    DigestIds(listId, EscapeLine(m.text), digest);
  }

  lemma DigestIds(listId: string, item: string, digest: Digest)
    requires IsDigest(digest)
    ensures IsItemId(ItemId(listId, item, digest))
  {
    hide Comparable, IsHex;
    var d := digest(listId + ":" + Comparable(item));
    assert |d| == 16 && IsHex(d);
    assert ("mli_" + d)[4..] == d;
  }

  predicate CleanItems(items: seq<Item>) {
    forall i :: 0 <= i < |items| ==> Clean(items[i].item)
  }

  lemma ApplyKeepsSound(x: Item, m: Metadata)
    requires SoundItem(x) && NoBreak(m.value)
    ensures SoundItem(Apply(x, m)) && Apply(x, m).item == x.item
  {
    hide IsItemId;
  }

  lemma SoundMore(items: seq<Item>, x: Item)
    requires SoundItems(items) && CleanItems(items) && SoundItem(x) && Clean(x.item)
    ensures SoundItems(items + [x]) && CleanItems(items + [x])
  {
    hide SoundItem, Clean;
  }

  lemma SoundFewer(items: seq<Item>)
    requires SoundItems(items) && CleanItems(items) && items != []
    ensures SoundItems(items[..|items| - 1]) && CleanItems(items[..|items| - 1])
    ensures SoundItem(items[|items| - 1]) && Clean(items[|items| - 1].item)
  {
    hide SoundItem, Clean;
  }

  lemma FeedKeepsSound(listId: string, items: seq<Item>, line: string, digest: Digest)
    requires IsDigest(digest) && SoundItems(items) && CleanItems(items) && NoBreak(line)
    ensures SoundItems(Feed(listId, items, line, digest)) && CleanItems(Feed(listId, items, line, digest))
  {
    hide MatchItem, NewItem, MatchMetadata, SoundItem, Clean, IsDigest, NoBreak, Apply, SoundItems, CleanItems;
    if MatchItem(line).Some? {
      NewItemIsSound(listId, MatchItem(line).value, digest);
      SoundMore(items, NewItem(listId, MatchItem(line).value, digest));
    } else if items != [] && MatchMetadata(line).Some? {
      MetadataNoBreak(line);
      SoundFewer(items);
      ApplyKeepsSound(items[|items| - 1], MatchMetadata(line).value);
      SoundMore(items[..|items| - 1], Apply(items[|items| - 1], MatchMetadata(line).value));
    }
  }

  lemma {:induction false} FeedAllKeepsSound(listId: string, items: seq<Item>, lines: seq<string>, digest: Digest)
    requires IsDigest(digest) && SoundItems(items) && CleanItems(items) && NoBreaks(lines)
    ensures SoundItems(FeedAll(listId, items, lines, digest)) && CleanItems(FeedAll(listId, items, lines, digest))
    decreases |lines|
  {
    hide IsDigest, SoundItems, CleanItems, NoBreak, Feed;
    if lines != [] {
      FeedKeepsSound(listId, items, lines[0], digest);
      FeedAllKeepsSound(listId, Feed(listId, items, lines[0], digest), lines[1..], digest);
    }
  }

  /** Whatever the markdown, the parsed list has clean texts and can be printed soundly. */
  lemma ParseIsSound(listId: string, fallback: string, markdown: string, digest: Digest)
    requires IsDigest(digest) && NoBreak(listId) && NoBreak(fallback)
    ensures SoundList(ParseList(listId, fallback, markdown, digest)) && CleanItems(ParseList(listId, fallback, markdown, digest).items)
  {
    SplitParts(markdown, '\n');
    if TitleFrom(markdown, 0).Some? { TitleNoBreak(markdown, 0); }
    NothingIsSound();
    hide Split, FeedAll, TitleFrom, SoundItems, CleanItems, IsDigest;
    assert NoBreaks(Split(markdown, '\n'));
    FeedAllKeepsSound(listId, [], Split(markdown, '\n'), digest);
  }

  lemma NothingIsSound()
    ensures SoundItems([]) && CleanItems([])
  {}

  // ----- adding twice -----

  lemma {:induction false} CleanTexts(items: seq<Item>)
    requires CleanItems(items)
    ensures EscapedTexts(items) == Texts(items)
  {
    hide EscapeLine, Clean;
    if items != [] {
      CleanTexts(items[..|items| - 1]);
      CleanIsFixed(items[|items| - 1].item);
    }
  }

  /** A duplicate is found exactly when some text compares equal. */
  predicate SomeComparable(texts: seq<string>, comparable: string) {
    exists i :: 0 <= i < |texts| && Comparable(texts[i]) == comparable
  }

  lemma FoundIffSome(items: seq<Item>, comparable: string)
    ensures FindComparable(items, comparable).Some? <==> SomeComparable(Texts(items), comparable)
  {
    hide Comparable;
    var r := FindComparable(items, comparable);
    if r.Some? {
      var i :| 0 <= i < |items| && items[i] == r.value;
      assert Texts(items)[i] == r.value.item;
    }
    if SomeComparable(Texts(items), comparable) {
      var i :| 0 <= i < |Texts(items)| && Comparable(Texts(items)[i]) == comparable;
      assert items[i] in items;
    }
  }

  lemma ReadIsSound(listId: string, fallback: string, doc: Option<ListDocument>, digest: Digest)
    requires IsDigest(digest) && NoBreak(listId) && NoBreak(fallback)
    ensures var list := ReadList(listId, fallback, doc, digest); SoundList(list) && CleanItems(list.items) && list.listId == listId
  {
    if doc.Some? { ParseIsSound(listId, fallback, doc.value.markdown, digest); }
    hide ParseList;
  }

  lemma AddedDocument(listId: string, fallback: string, doc: Option<ListDocument>, a: Addition, digest: Digest)
    ensures var list, r := ReadList(listId, fallback, doc, digest), AddMemoryListItem(listId, fallback, doc, a, digest);
      && (!r.duplicate ==>
            ReadList(listId, fallback, r.doc, digest)
            == ParseList(listId, fallback, RenderList(list.(items := list.items + [AddedItem(listId, a, digest)])), digest))
  {
    hide ParseList, RenderList, AddedItem, FindComparable;
  }

  lemma AddedIsSound(listId: string, a: Addition, digest: Digest)
    requires IsDigest(digest) && NoBreak(a.now)
    ensures SoundItem(AddedItem(listId, a, digest)) && AddedItem(listId, a, digest).item == EscapeLine(a.item)
  {
    DigestIds(listId, a.item, digest);
    hide EscapeLine, ItemId, IsItemId, NoBreak;
  }

  /** The texts of the stored list after an add that found no duplicate. */
  lemma TextsAfterAdd(listId: string, fallback: string, doc: Option<ListDocument>, a: Addition, digest: Digest)
    requires IsDigest(digest) && NoBreak(listId) && NoBreak(fallback) && NoBreak(a.now)
    ensures var r := AddMemoryListItem(listId, fallback, doc, a, digest);
      !r.duplicate ==> Texts(ReadList(listId, fallback, r.doc, digest).items) == Texts(ReadList(listId, fallback, doc, digest).items) + [EscapeLine(a.item)]
  {
    hide *;
    var list, item := ReadList(listId, fallback, doc, digest), AddedItem(listId, a, digest);
    AddedDocument(listId, fallback, doc, a, digest);
    ReadIsSound(listId, fallback, doc, digest);
    AddedIsSound(listId, a, digest);
    MoreIsSound(list, item);
    TextsSurvive(list.(items := list.items + [item]), fallback, digest);
    CleanTexts(list.items);
    EscapedTextsMore(list.items, item);
    EscapeFixed(a.item);
  }

  lemma MoreIsSound(list: MemoryList, item: Item)
    requires SoundList(list) && SoundItem(item)
    ensures SoundList(list.(items := list.items + [item]))
  {
    hide SoundItem;
  }

  lemma EscapedTextsMore(items: seq<Item>, x: Item)
    ensures EscapedTexts(items + [x]) == EscapedTexts(items) + [EscapeLine(x.item)]
  {
    hide EscapeLine;
    assert (items + [x])[..|items + [x]| - 1] == items;
  }

  /**
   After an item was added, adding any comparably equal one reports a duplicate and leaves the
   document as it is, exactly when escaping did not change how the added text compares.
   */
  lemma AddTwice(listId: string, fallback: string, doc: Option<ListDocument>, a: Addition, b: Addition, digest: Digest)
    requires IsDigest(digest) && NoBreak(listId) && NoBreak(fallback) && NoBreak(a.now)
    ensures var r := AddMemoryListItem(listId, fallback, doc, a, digest); var again := AddMemoryListItem(listId, fallback, r.doc, b, digest);
      && (!r.duplicate && Comparable(b.item) == Comparable(a.item) ==>
            && (again.duplicate <==> Comparable(EscapeLine(a.item)) == Comparable(a.item))
            && (again.duplicate ==> again.doc == r.doc))
  {
    var r := AddMemoryListItem(listId, fallback, doc, a, digest);
    TextsAfterAdd(listId, fallback, doc, a, digest);
    var before, after := ReadList(listId, fallback, doc, digest).items, ReadList(listId, fallback, r.doc, digest).items;
    FoundIffSome(before, Comparable(a.item));
    FoundIffSome(after, Comparable(b.item));
    hide ReadList, Texts, Comparable, EscapeLine, FindComparable, RenderList, AddedItem;
    SomeMore(Texts(before), EscapeLine(a.item), Comparable(a.item));
  }

  lemma SomeMore(texts: seq<string>, t: string, comparable: string)
    ensures SomeComparable(texts + [t], comparable) <==> SomeComparable(texts, comparable) || Comparable(t) == comparable
  {
    hide Comparable;
    if SomeComparable(texts, comparable) {
      var i :| 0 <= i < |texts| && Comparable(texts[i]) == comparable;
      assert (texts + [t])[i] == texts[i];
    }
    assert (texts + [t])[|texts|] == t;
  }

  /** Text without comment markers is enough. */
  lemma AddTwiceWithoutComments(listId: string, fallback: string, doc: Option<ListDocument>, a: Addition, b: Addition, digest: Digest)
    requires IsDigest(digest) && NoBreak(listId) && NoBreak(fallback) && NoBreak(a.now) && NoMarker(a.item)
    ensures var r := AddMemoryListItem(listId, fallback, doc, a, digest); var again := AddMemoryListItem(listId, fallback, r.doc, b, digest);
      !r.duplicate && Comparable(b.item) == Comparable(a.item) ==> again.duplicate && again.doc == r.doc
  {
    hide AddMemoryListItem, Comparable, EscapeLine, NoMarker;
    AddTwice(listId, fallback, doc, a, b, digest);
    EscapedCompares(a.item);
  }
}
