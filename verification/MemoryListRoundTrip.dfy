/** Printing a memory list and parsing it back. */
module MemoryListRoundTrip {
  import opened Wrappers
  import opened Lines
  import opened MemoryLists
  import opened MemoryListText
  import opened MemoryListLines
  import opened MemoryListTheorems

  // ----- lists that print faithfully -----

  predicate StampOk(o: Option<string>) {
    o.Some? ==> o.value != "" && Trimmed(o.value) && OneLine(o.value)
  }

  predicate NoteOk(o: Option<string>) {
    o.Some? ==> o.value != "" && Clean(o.value)
  }

  predicate PrintableItem(x: Item) {
    && x.item != "" && Clean(x.item) && IsItemId(x.id)
    && StampOk(x.addedAt) && NoteOk(x.source) && NoteOk(x.notes) && StampOk(x.archivedAt) && NoteOk(x.archiveReason)
    && (x.archivedAt.Some? ==> x.archived)
  }

  predicate PrintableItems(items: seq<Item>) {
    forall i :: 0 <= i < |items| ==> PrintableItem(items[i])
  }

  predicate PrintableList(list: MemoryList) {
    list.title != "" && Trimmed(list.title) && OneLine(list.title) && NoBreak(list.listId) && PrintableItems(list.items)
  }

  // ----- one item -----

  function WithoutMetadata(x: Item): Item {
    Item(x.id, x.item, x.archived, None, None, None, None, None)
  }

  lemma FeedItemLine(listId: string, items: seq<Item>, x: Item, digest: Digest)
    requires x.item != "" && Clean(x.item) && IsItemId(x.id)
    ensures EscapeLine(x.item) == x.item
    ensures Feed(listId, items, ItemLine(MarkOf(x), x.item, x.id), digest) == items + [WithoutMetadata(x)]
  {
    ItemLineMatches(MarkOf(x), x.item, x.id);
    CleanIsFixed(x.item);
    hide MatchItem, EscapeLine, ItemLine, Clean, IsItemId, MatchMetadata;
  }

  function Applied(y: Item, key: string, o: Option<string>): Item {
    if o.Some? then Apply(y, Metadata(key, o.value)) else y
  }

  lemma FeedMeta(listId: string, items: seq<Item>, y: Item, key: string, o: Option<string>, digest: Digest)
    requires key != [] && KeyLetters(key) && StampOk(o)
    ensures FeedAll(listId, items + [y], MetaLines(key, o), digest) == items + [Applied(y, key, o)]
  {
    hide Apply, KeyLetters, MatchItem, MatchMetadata, MetaLine, Trimmed, OneLine, FeedAll;
    if o.Some? {
      MetaLineMatches(key, o.value);
      FeedOne(listId, items + [y], MetaLine(key, o.value), digest);
      assert (items + [y])[..|items|] == items;
    } else {
      FeedOne(listId, items + [y], "", digest);
    }
  }

  lemma NoteIsStamp(o: Option<string>)
    requires NoteOk(o)
    ensures StampOk(o) && Escaped(o) == o
  {
    if o.Some? {
      forall i | 0 <= i < |o.value| ensures !Terminator(o.value[i]) { CleanHasNoTerminator(o.value, i); }
      CleanIsFixed(o.value);
      hide EscapeLine, NoMarker, SingleSpaced, Terminator;
    }
  }

  lemma StampStays(o: Option<string>)
    requires StampOk(o)
    ensures Stamp(o) == o
  {}

  /** The fields of an item are put back one by one. */
  lemma FieldsRestored(x: Item)
    requires x.archivedAt.Some? ==> x.archived
    requires StampOk(x.addedAt) && StampOk(x.source) && StampOk(x.notes) && StampOk(x.archivedAt) && StampOk(x.archiveReason)
    ensures var y1 := Applied(WithoutMetadata(x), "added", x.addedAt); var y2 := Applied(y1, "source", x.source);
      var y3 := Applied(y2, "notes", x.notes); var y4 := Applied(y3, "archived", x.archivedAt);
      Applied(y4, "archive_reason", x.archiveReason) == x
  {
    hide Trimmed, OneLine;
  }

  lemma KeysAreLetters()
    ensures KeyLetters("added") && KeyLetters("source") && KeyLetters("notes") && KeyLetters("archived") && KeyLetters("archive_reason")
  {}

  lemma PrintedItem(x: Item)
    requires PrintableItem(x)
    ensures EscapeLine(x.item) == x.item
    ensures RenderItem(x) == [ItemLine(MarkOf(x), x.item, x.id)]
      + MetaLines("added", x.addedAt) + MetaLines("source", x.source) + MetaLines("notes", x.notes)
      + MetaLines("archived", x.archivedAt) + MetaLines("archive_reason", x.archiveReason)
    ensures StampOk(x.addedAt) && StampOk(x.source) && StampOk(x.notes) && StampOk(x.archivedAt) && StampOk(x.archiveReason)
  {
    CleanIsFixed(x.item);
    NoteIsStamp(x.source);
    NoteIsStamp(x.notes);
    NoteIsStamp(x.archiveReason);
    StampStays(x.addedAt);
    StampStays(x.archivedAt);
    hide EscapeLine, Clean, StampOk, NoteOk, Escaped, Stamp, ItemLine, MetaLines, MarkOf, IsItemId;
  }

  /** The lines of one item put exactly that item on the list. */
  lemma FeedItem(listId: string, items: seq<Item>, x: Item, digest: Digest)
    requires PrintableItem(x)
    ensures FeedAll(listId, items, RenderItem(x), digest) == items + [x]
  {
    PrintedItem(x);
    FieldsRestored(x);
    KeysAreLetters();
    FeedItemLine(listId, items, x, digest);
    hide *;
    var l0 := [ItemLine(MarkOf(x), x.item, x.id)];
    FeedOne(listId, items, l0[0], digest);
    var y1 := Applied(WithoutMetadata(x), "added", x.addedAt);
    var m1 := MetaLines("added", x.addedAt);
    FeedConcat(listId, items, l0, m1, digest);
    FeedMeta(listId, items, WithoutMetadata(x), "added", x.addedAt, digest);
    var y2 := Applied(y1, "source", x.source);
    var m2 := MetaLines("source", x.source);
    FeedConcat(listId, items, l0 + m1, m2, digest);
    FeedMeta(listId, items, y1, "source", x.source, digest);
    var y3 := Applied(y2, "notes", x.notes);
    var m3 := MetaLines("notes", x.notes);
    FeedConcat(listId, items, l0 + m1 + m2, m3, digest);
    FeedMeta(listId, items, y2, "notes", x.notes, digest);
    var y4 := Applied(y3, "archived", x.archivedAt);
    var m4 := MetaLines("archived", x.archivedAt);
    FeedConcat(listId, items, l0 + m1 + m2 + m3, m4, digest);
    FeedMeta(listId, items, y3, "archived", x.archivedAt, digest);
    var m5 := MetaLines("archive_reason", x.archiveReason);
    FeedConcat(listId, items, l0 + m1 + m2 + m3 + m4, m5, digest);
    FeedMeta(listId, items, y4, "archive_reason", x.archiveReason, digest);
  }

  lemma {:induction false} FeedItems(listId: string, items: seq<Item>, digest: Digest)
    requires PrintableItems(items)
    ensures FeedAll(listId, [], RenderItems(items), digest) == items
  {
    hide PrintableItem, RenderItem, FeedAll;
    if items == [] {
      FeedOne(listId, [], "", digest);
    } else {
      var front, x := items[..|items| - 1], items[|items| - 1];
      FeedItems(listId, front, digest);
      FeedConcat(listId, [], RenderItems(front), RenderItem(x), digest);
      FeedItem(listId, front, x, digest);
      assert front + [x] == items;
    }
  }

  // ----- the file -----

  lemma {:induction false} FeedHeader(listId: string, lines: seq<string>, digest: Digest)
    requires forall i :: 0 <= i < |lines| ==> Inert(lines[i])
    ensures FeedAll(listId, [], lines, digest) == []
    decreases |lines|
  {
    if lines != [] {
      MetaIsNoItem(lines[0]);
      FeedHeader(listId, lines[1..], digest);
    }
    hide MatchItem, MatchMetadata, Inert;
  }

  lemma FeedBlank(listId: string, items: seq<Item>, digest: Digest)
    ensures FeedAll(listId, items, [""], digest) == items
  {
    MetaIsNoItem("");
    FeedOne(listId, items, "", digest);
  }

  predicate Tight(line: string) {
    line != [] && !Space(line[|line| - 1])
  }

  predicate AllTight(rs: seq<string>) {
    forall i :: 0 <= i < |rs| ==> Tight(rs[i])
  }

  lemma TightMore(a: seq<string>, b: seq<string>)
    requires AllTight(a) && AllTight(b)
    ensures AllTight(a + b)
  {
    hide Tight;
  }

  lemma MetaTight(key: string, o: Option<string>)
    requires StampOk(o)
    ensures AllTight(MetaLines(key, o))
  {
    if o.Some? {
      var line := MetaLine(key, o.value);
      assert line[|line| - 1] == o.value[|o.value| - 1];
    }
  }

  lemma ItemLineTight(mark: char, t: string, id: string)
    ensures AllTight([ItemLine(mark, t, id)])
  {
    var s := ItemLine(mark, t, id);
    assert s[|s| - 1] == '>';
  }

  lemma ItemTight(x: Item)
    requires PrintableItem(x)
    ensures AllTight(RenderItem(x)) && RenderItem(x) != []
  {
    PrintedItem(x);
    hide *;
    var l0 := [ItemLine(MarkOf(x), x.item, x.id)];
    ItemLineTight(MarkOf(x), x.item, x.id);
    MetaTight("added", x.addedAt);
    TightMore(l0, MetaLines("added", x.addedAt));
    MetaTight("source", x.source);
    TightMore(l0 + MetaLines("added", x.addedAt), MetaLines("source", x.source));
    MetaTight("notes", x.notes);
    TightMore(l0 + MetaLines("added", x.addedAt) + MetaLines("source", x.source), MetaLines("notes", x.notes));
    MetaTight("archived", x.archivedAt);
    TightMore(l0 + MetaLines("added", x.addedAt) + MetaLines("source", x.source) + MetaLines("notes", x.notes), MetaLines("archived", x.archivedAt));
    MetaTight("archive_reason", x.archiveReason);
    TightMore(l0 + MetaLines("added", x.addedAt) + MetaLines("source", x.source) + MetaLines("notes", x.notes) + MetaLines("archived", x.archivedAt),
      MetaLines("archive_reason", x.archiveReason));
  }

  lemma TightStays(a: seq<string>, rs: seq<string>)
    requires AllTight(rs) && rs != []
    ensures TrimLast(a + rs) == a + rs
  {
    assert Tight(rs[|rs| - 1]);
    assert TrimEnd(rs[|rs| - 1], Space) == rs[|rs| - 1];
    hide TrimEnd, Tight, AllTight;
  }

  lemma LastItem(items: seq<Item>)
    requires PrintableItems(items) && items != []
    ensures PrintableItem(items[|items| - 1]) && RenderItems(items) == RenderItems(items[..|items| - 1]) + RenderItem(items[|items| - 1])
  {
    hide PrintableItem, RenderItem;
  }

  lemma TightEnd(h: seq<string>, front: seq<string>, rs: seq<string>)
    requires AllTight(rs) && rs != []
    ensures TrimLast(h + (front + rs)) == h + (front + rs)
  {
    TightStays(h + front, rs);
    assert h + (front + rs) == (h + front) + rs;
  }

  lemma TrimItems(h: seq<string>, items: seq<Item>)
    requires PrintableItems(items) && items != []
    ensures TrimLast(h + RenderItems(items)) == h + RenderItems(items)
  {
    LastItem(items);
    ItemTight(items[|items| - 1]);
    TightEnd(h, RenderItems(items[..|items| - 1]), RenderItem(items[|items| - 1]));
    hide *;
  }

  /** Nothing is trimmed off the lines of a printable list. */
  lemma FileOfPrintable(list: MemoryList)
    requires PrintableItems(list.items)
    ensures FileLines(list) == (if list.items == [] then HeaderLines(list)[..3] else HeaderLines(list) + RenderItems(list.items))
  {
    hide HeaderLines, RenderItems, PrintableItems, TrimLast;
    if list.items != [] { TrimItems(HeaderLines(list), list.items); }
  }

  lemma HeaderIsInert(list: MemoryList)
    ensures |HeaderLines(list)| == 4
    ensures forall i :: 0 <= i < 4 ==> Inert(HeaderLines(list)[i])
  {}

  lemma FeedHeaders(list: MemoryList, digest: Digest)
    ensures FeedAll(list.listId, [], HeaderLines(list), digest) == [] && FeedAll(list.listId, [], HeaderLines(list)[..3], digest) == []
  {
    HeaderIsInert(list);
    hide *;
    FeedHeader(list.listId, HeaderLines(list), digest);
    FeedHeader(list.listId, HeaderLines(list)[..3], digest);
  }

  lemma FeedFile(list: MemoryList, digest: Digest)
    requires PrintableItems(list.items)
    ensures FeedAll(list.listId, [], FileLines(list) + [""], digest) == list.items
  {
    FileOfPrintable(list);
    FeedHeaders(list, digest);
    hide *;
    FeedBlank(list.listId, list.items, digest);
    FeedItems(list.listId, list.items, digest);
    FeedConcat(list.listId, [], FileLines(list), [""], digest);
    FeedConcat(list.listId, [], HeaderLines(list), RenderItems(list.items), digest);
  }

  // ----- the title -----

  lemma {:induction false} LineEndAt(title: string, rest: string, i: nat)
    requires i <= |title| && OneLine(title)
    ensures LineEnd(title + "\n" + rest, i) == |title|
    decreases |title| - i
  {
    if i < |title| { LineEndAt(title, rest, i + 1); }
  }

  lemma TitleHere(title: string, rest: string)
    requires title != "" && Trimmed(title) && OneLine(title)
    ensures TitleAt("# " + title + "\n" + rest, 0) == Some(title)
  {
    var s := "# " + title + "\n" + rest;
    var after := title + "\n" + rest;
    LineEndAt(title, rest, 0);
    TrimFixed(title, Space);
    SkipOne(after);
    SkipNone(after);
    hide LineEnd, TrimStart, Trim, Trimmed, OneLine, Space;
    assert s[1..] == " " + after;
    assert after[..|title|] == title && s[0] == '#';
  }

  lemma TitleReads(title: string, rest: string)
    requires title != "" && Trimmed(title) && OneLine(title)
    ensures TitleFrom("# " + title + "\n" + rest, 0) == Some(title)
  {
    var s := "# " + title + "\n" + rest;
    TitleHere(title, rest);
    hide TitleAt, OneLine, Trimmed;
    assert TitleFrom(s, 0) == TitleAtOrAfter(s, 0) == TitleAt(s, 0);
  }

  lemma FileStarts(list: MemoryList)
    requires PrintableItems(list.items)
    ensures |FileLines(list)| >= 2 && FileLines(list)[0] == "# " + list.title
  {
    FileOfPrintable(list);
    hide FileLines, RenderItems, PrintableItems;
  }

  lemma JoinFirst(lines: seq<string>)
    requires |lines| >= 2
    ensures Join(lines, '\n') == lines[0] + "\n" + Join(lines[1..], '\n')
  {}

  lemma TitleOfPrintable(list: MemoryList, fallback: string)
    requires PrintableList(list)
    ensures TitleOf(RenderList(list), fallback) == list.title
  {
    FileStarts(list);
    FileIsLines(list);
    hide Join, FileLines, RenderList, TitleFrom, PrintableItems, HeaderLines;
    var all := FileLines(list) + [""];
    JoinFirst(all);
    TitleReads(list.title, Join(all[1..], '\n'));
  }

  // ----- the theorem -----

  lemma StampIsBreakless(o: Option<string>)
    requires StampOk(o)
    ensures StampFits(o)
  {}

  lemma PrintableIsSound(list: MemoryList)
    requires PrintableList(list)
    ensures SoundList(list)
  {
    assert NoBreak(list.title);
    forall i | 0 <= i < |list.items| ensures SoundItem(list.items[i]) {
      assert PrintableItem(list.items[i]);
      StampIsBreakless(list.items[i].addedAt);
      StampIsBreakless(list.items[i].archivedAt);
    }
  }

  /** Parsing the printed list gives the list back. */
  lemma RoundTrip(list: MemoryList, fallback: string, digest: Digest)
    requires PrintableList(list)
    ensures ParseList(list.listId, fallback, RenderList(list), digest) == list
  {
    PrintableIsSound(list);
    TitleOfPrintable(list, fallback);
    hide RenderList, FileLines, FeedAll, Split, TitleOf, PrintableItems, SoundList;
    FileNoBreaks(list);
    FileSplits(list);
    FeedFile(list, digest);
  }

  // ----- removing -----

  /** Removing an item archives it; an earlier archive date stays. */
  function ArchiveItem(x: Item, reason: Option<string>, now: string): Item {
    x.(archived := true,
       archivedAt := if x.archivedAt.Some? then x.archivedAt else Some(now),
       archiveReason := if Present(reason) then Some(EscapeLine(reason.value)) else x.archiveReason)
  }

  function FirstFit(items: seq<Item>, fits: Item -> bool): (r: Option<nat>)
    ensures r.Some? ==> r.value < |items| && fits(items[r.value]) && forall k :: 0 <= k < r.value ==> !fits(items[k])
    ensures r.None? ==> forall k :: 0 <= k < |items| ==> !fits(items[k])
  {
    if items == [] then None
    else if fits(items[0]) then Some(0)
    else
      var r := FirstFit(items[1..], fits);
      assert forall k :: 1 <= k < |items| ==> items[k] == items[1..][k - 1];
      if r.Some? then Some(r.value + 1) else None
  }

  /** By id when one is given, else the first item whose text compares equal. */
  function FindMutableItem(items: seq<Item>, itemId: Option<string>, item: Option<string>): (r: Option<nat>)
    ensures r.Some? ==> r.value < |items| && (Present(itemId) || Present(item))
    ensures r.Some? && Present(itemId) ==> items[r.value].id == itemId.value && forall k :: 0 <= k < r.value ==> items[k].id != itemId.value
    ensures r.Some? && !Present(itemId) ==> Comparable(items[r.value].item) == Comparable(item.value)
    ensures r.Some? && !Present(itemId) ==> forall k :: 0 <= k < r.value ==> Comparable(items[k].item) != Comparable(item.value)
    ensures r.None? && Present(itemId) ==> forall k :: 0 <= k < |items| ==> items[k].id != itemId.value
    ensures r.None? && !Present(itemId) && Present(item) ==> forall k :: 0 <= k < |items| ==> Comparable(items[k].item) != Comparable(item.value)
  {
    hide Comparable;
    if Present(itemId) then FirstFit(items, (x: Item) => x.id == itemId.value)
    else if Present(item) then FirstFit(items, (x: Item) => Comparable(x.item) == Comparable(item.value))
    else None
  }

  function RemoveMemoryListItem(listId: string, fallback: string, doc: ListDocument, itemId: Option<string>, item: Option<string>, reason: Option<string>, now: string, digest: Digest): Option<ListDocument> {
    var list := ParseList(listId, fallback, doc.markdown, digest);
    var at := FindMutableItem(list.items, itemId, item);
    if at.None? then None
    else Some(ListDocument(RenderList(list.(items := list.items[at.value := ArchiveItem(list.items[at.value], reason, now)])), doc.version + 1))
  }

  lemma ArchivedIsPrintable(x: Item, reason: Option<string>, now: string)
    requires PrintableItem(x) && StampOk(Some(now)) && (Present(reason) ==> EscapeLine(reason.value) != "")
    ensures PrintableItem(ArchiveItem(x, reason, now))
  {
    if Present(reason) { EscapedIsClean(reason.value); }
    hide EscapeLine, Clean, Trimmed, OneLine, IsItemId;
  }

  /** `t` is `x` archived: what it says is kept, an earlier date of archiving stays, and so does an earlier reason unless a new one is given. */
  predicate ArchivedAs(t: Item, x: Item, reason: Option<string>, now: string) {
    && t.archived && t.id == x.id && t.item == x.item && t.addedAt == x.addedAt && t.source == x.source && t.notes == x.notes
    && t.archivedAt == (if x.archivedAt == None then Some(now) else x.archivedAt)
    && t.archiveReason == (if reason == None || reason.value == "" then x.archiveReason else Some(EscapeLine(reason.value)))
  }

  lemma ArchivedFields(x: Item, reason: Option<string>, now: string)
    ensures ArchivedAs(ArchiveItem(x, reason, now), x, reason, now)
  {
    hide EscapeLine;
  }

  /** Every item is still there, in order; only the one at `at` changed, and it is archived. */
  predicate OneArchived(after: MemoryList, before: MemoryList, at: nat, reason: Option<string>, now: string) {
    && after.listId == before.listId && after.title == before.title && |after.items| == |before.items| && at < |before.items|
    && ArchivedAs(after.items[at], before.items[at], reason, now)
    && forall i :: 0 <= i < |before.items| && i != at ==> after.items[i] == before.items[i]
  }

  /** After a removal every item is still there, in order; only the removed one changed, and it is archived. */
  lemma RemovingArchives(list: MemoryList, version: nat, itemId: Option<string>, item: Option<string>, reason: Option<string>, now: string, fallback: string, digest: Digest)
    requires PrintableList(list) && StampOk(Some(now)) && (Present(reason) ==> EscapeLine(reason.value) != "")
    ensures var r := RemoveMemoryListItem(list.listId, fallback, ListDocument(RenderList(list), version), itemId, item, reason, now, digest);
      var at := FindMutableItem(list.items, itemId, item);
      && (r.Some? <==> at.Some?)
      && (r.Some? ==>
            && r.value.version == version + 1
            && OneArchived(ParseList(list.listId, fallback, r.value.markdown, digest), list, at.value, reason, now))
  {
    hide ArchivedAs, ParseList, RenderList, PrintableItem, ArchiveItem, StampOk, Present, EscapeLine, Trimmed, OneLine, NoBreak, FindMutableItem;
    RoundTrip(list, fallback, digest);
    var at := FindMutableItem(list.items, itemId, item);
    if at.Some? {
      ArchivedIsPrintable(list.items[at.value], reason, now);
      ArchivedFields(list.items[at.value], reason, now);
      RoundTrip(list.(items := list.items[at.value := ArchiveItem(list.items[at.value], reason, now)]), fallback, digest);
    }
  }

  // ----- adding -----

  lemma {:induction false} OriginHasNoMarker(origin: string, c: string)
    requires NoMarker(c) && forall i :: 0 <= i < |origin| ==> origin[i] != '<' && origin[i] != '-'
    ensures NoMarker(origin + c)
  {
    if origin == [] {
      assert origin + c == c;
    } else {
      OriginHasNoMarker(origin[1..], c);
      assert (origin + c)[1..] == origin[1..] + c && (origin + c)[0] == origin[0];
    }
  }

  lemma {:induction false} OriginIsSingleSpaced(origin: string, c: string)
    requires SingleSpaced(c) && forall i :: 0 <= i < |origin| ==> !Space(origin[i])
    ensures SingleSpaced(origin + c)
  {
    if origin == [] {
      assert origin + c == c;
    } else {
      OriginIsSingleSpaced(origin[1..], c);
      assert (origin + c)[1..] == origin[1..] + c && (origin + c)[0] == origin[0];
    }
  }

  lemma OriginIsClean(c: string)
    requires Clean(c)
    ensures Clean("owner_message:" + c) && EscapeLine("owner_message:" + c) == "owner_message:" + c
  {
    OriginHasNoMarker("owner_message:", c);
    OriginIsSingleSpaced("owner_message:", c);
    hide EscapeLine, NoMarker, SingleSpaced;
    var s := "owner_message:" + c;
    assert s[0] == 'o' && s[|s| - 1] == if c == "" then ':' else c[|c| - 1];
    CleanIsFixed(s);
  }

  /** The item an addition makes: active, with the escaped texts, the date, and where it came from. */
  predicate AddedAs(t: Item, a: Addition, listId: string, digest: Digest) {
    && t.id == "mli_" + digest(listId + ":" + Comparable(a.item)) && t.item == EscapeLine(a.item) && !t.archived
    && t.addedAt == Some(a.now) && t.archivedAt == None && t.archiveReason == None
    && t.notes == (if a.notes == None || a.notes.value == "" then None else Some(EscapeLine(a.notes.value)))
    && t.source == (if a.sourceMessageId == None || a.sourceMessageId.value == "" then None
      else Some("owner_message:" + EscapeLine(a.sourceMessageId.value)))
  }

  lemma AddedFields(listId: string, a: Addition, digest: Digest)
    ensures AddedAs(AddedItem(listId, a, digest), a, listId, digest)
  {
    hide EscapeLine, Comparable;
  }

  lemma AddedIsPrintable(listId: string, a: Addition, digest: Digest)
    requires IsDigest(digest) && StampOk(Some(a.now)) && EscapeLine(a.item) != "" && (Present(a.notes) ==> EscapeLine(a.notes.value) != "")
    ensures PrintableItem(AddedItem(listId, a, digest))
  {
    DigestIds(listId, a.item, digest);
    EscapedIsClean(a.item);
    if Present(a.notes) { EscapedIsClean(a.notes.value); }
    if Present(a.sourceMessageId) {
      EscapedIsClean(a.sourceMessageId.value);
      OriginIsClean(EscapeLine(a.sourceMessageId.value));
    }
    hide EscapeLine, Comparable, Clean, ItemId, IsItemId, Trimmed, OneLine;
  }

  /** The list as it was, with the addition at its end. */
  predicate OneAdded(after: MemoryList, before: MemoryList, a: Addition, digest: Digest) {
    && after.listId == before.listId && after.title == before.title && |after.items| == |before.items| + 1
    && after.items[..|before.items|] == before.items && AddedAs(after.items[|before.items|], a, before.listId, digest)
  }

  /** A new item is read back at the end of the list, field by field, and no item before it changed; a comparably equal one is not added again. */
  lemma AddingAppends(list: MemoryList, version: nat, a: Addition, fallback: string, digest: Digest)
    requires IsDigest(digest)
    ensures PrintableList(list) && StampOk(Some(a.now)) && EscapeLine(a.item) != "" && (Present(a.notes) ==> EscapeLine(a.notes.value) != "") ==>
      var doc := ListDocument(RenderList(list), version); var r := AddMemoryListItem(list.listId, fallback, Some(doc), a, digest);
      && (r.duplicate <==> exists x <- list.items :: Comparable(x.item) == Comparable(a.item))
      && (r.duplicate ==> r.doc == Some(doc) && exists x <- list.items :: x.id == r.itemId && Comparable(x.item) == Comparable(a.item))
      && (!r.duplicate ==>
        && r.doc.Some? && r.doc.value.version == version + 1
        && OneAdded(ParseList(list.listId, fallback, r.doc.value.markdown, digest), list, a, digest))
  {
    hide ParseList, RenderList, PrintableItem, AddedItem, AddedAs, EscapeLine, Comparable, StampOk, Trimmed, OneLine, NoBreak;
    if !(PrintableList(list) && StampOk(Some(a.now)) && EscapeLine(a.item) != "" && (Present(a.notes) ==> EscapeLine(a.notes.value) != "")) { return; }
    RoundTrip(list, fallback, digest);
    var item := AddedItem(list.listId, a, digest);
    AddedIsPrintable(list.listId, a, digest);
    AddedFields(list.listId, a, digest);
    RoundTrip(list.(items := list.items + [item]), fallback, digest);
  }

  // ----- a comment defeats the duplicate check -----

  lemma {:induction false} WordsShow(s: string, i: nat, started: bool, gap: bool)
    requires i < |s| && IsWordChar(s[i])
    ensures Words(s, started, gap) != []
  {
    if !IsWordChar(s[0]) { WordsShow(s[1..], i - 1, started, true); }
  }

  /** An item whose whole text is a comment is stored as nothing, so the same text can be added again. */
  lemma CommentIsNoDuplicate(id: string)
    requires IsItemId(id)
    ensures Comparable(EscapeLine(IdComment(id))) != Comparable(IdComment(id))
  {
    CommentEscapes(id);
    var c := IdComment(id);
    hide IdComment, Words, EscapeLine;
    NothingCompares();
    assert Comparable(c) != [] by {
      ExpandedHead(c, id);
    }
  }

  lemma FirstAdd(listId: string, fallback: string, a: Addition, digest: Digest)
    ensures var r := AddMemoryListItem(listId, fallback, None, a, digest); !r.duplicate && r.doc.Some? && r.doc.value.version == 1
  {
    hide RenderList, AddedItem, Comparable, ParseList;
  }

  lemma NewVersion(listId: string, fallback: string, doc: ListDocument, a: Addition, digest: Digest)
    ensures var r := AddMemoryListItem(listId, fallback, Some(doc), a, digest);
      !r.duplicate ==> r.doc.Some? && r.doc.value.version == doc.version + 1
  {
    hide RenderList, AddedItem, Comparable, ParseList, FindComparable;
  }

  /** The history: the same comment is added to a new list twice, and the second time it is no duplicate. */
  lemma CommentIsAddedAgain(listId: string, fallback: string, id: string, a: Addition, digest: Digest)
    requires IsDigest(digest) && NoBreak(listId) && NoBreak(fallback) && NoBreak(a.now) && IsItemId(id) && a.item == IdComment(id)
    ensures var r := AddMemoryListItem(listId, fallback, None, a, digest); var again := AddMemoryListItem(listId, fallback, r.doc, a, digest);
      !r.duplicate && !again.duplicate && again.doc.Some? && again.doc.value.version == 2
  {
    hide *;
    FirstAdd(listId, fallback, a, digest);
    CommentIsNoDuplicate(id);
    AddTwice(listId, fallback, None, a, a, digest);
    NewVersion(listId, fallback, AddMemoryListItem(listId, fallback, None, a, digest).doc.value, a, digest);
  }

  lemma NothingCompares()
    ensures Comparable([]) == []
  {}

  lemma ExpandedHead(c: string, id: string)
    requires c == IdComment(id)
    ensures Words(Expanded(c), false, false) != []
  {
    var head, rest := "<!-- m", c[6..];
    assert c == head + rest;
    ExpandedConcat(head, rest);
    ExpandedSix();
    WordsShow(Expanded(c), 5, false, false);
  }

  lemma ExpandedSix()
    ensures Expanded("<!-- m") == "<!-- m"
  {
    assert Expanded("m") == "m";
    assert " m"[1..] == "m" && Expanded(" m") == " m";
    assert "- m"[1..] == " m" && Expanded("- m") == "- m";
    assert "-- m"[1..] == "- m" && Expanded("-- m") == "-- m";
    assert "!-- m"[1..] == "-- m" && Expanded("!-- m") == "!-- m";
    assert "<!-- m"[1..] == "!-- m";
  }
}
