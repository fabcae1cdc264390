/** Memory lists: markdown files of checkbox items, printed, parsed and added to. */
module MemoryLists {
  import opened Wrappers
  import opened Lines
  import Utf16

  predicate Space(c: char) {
    Utf16.IsSpaceCode(c as int)
  }

  predicate Terminator(c: char) {
    Utf16.IsTerminatorCode(c as int)
  }

  function SkipSpace(s: string): string {
    TrimStart(s, Space)
  }

  // ----- escaping -----

  function JoinLines(s: string): string {
    if s == [] then []
    else if s[0] == '\n' then " " + JoinLines(s[1..])
    else if "\r\n" <= s then " " + JoinLines(s[2..])
    else [s[0]] + JoinLines(s[1..])
  }

  /** Just past the first `-->` at or after `i` on the same line. */
  function CommentEnd(s: string, i: nat): (end: Option<nat>)
    requires i <= |s|
    ensures end.Some? ==> i + 3 <= end.value <= |s|
    decreases |s| - i
  {
    if "-->" <= s[i..] then Some(i + 3)
    else if i == |s| || Terminator(s[i]) then None
    else CommentEnd(s, i + 1)
  }

  function DropComments(s: string): string
    decreases |s|
  {
    if s == [] then []
    else if "<!--" <= s && CommentEnd(s, 4).Some? then " " + DropComments(s[CommentEnd(s, 4).value..])
    else [s[0]] + DropComments(s[1..])
  }

  function DropMarkers(s: string): string {
    if s == [] then []
    else if "<!--" <= s then " " + DropMarkers(s[4..])
    else if "-->" <= s then " " + DropMarkers(s[3..])
    else [s[0]] + DropMarkers(s[1..])
  }

  function Collapse(s: string): string {
    if s == [] then []
    else if Space(s[0]) then " " + Collapse(SkipSpace(s[1..]))
    else [s[0]] + Collapse(s[1..])
  }

  datatype Rewrite = LineBreaks | Comments | Markers | Spaces | Ends

  // The replacements of an escaped line, in order.
  const ESCAPES := [LineBreaks, Comments, Markers, Spaces, Ends]

  function ReplaceAll(s: string, step: Rewrite): string {
    match step
    case LineBreaks => JoinLines(s)
    case Comments => DropComments(s)
    case Markers => DropMarkers(s)
    case Spaces => Collapse(s)
    case Ends => Trim(s, Space)
  }

  function Rewritten(s: string, steps: seq<Rewrite>): string
    decreases |steps|, 1
  {
    if steps == [] then s else RewrittenFrom(s, steps)
  }

  function RewrittenFrom(s: string, steps: seq<Rewrite>): string
    requires steps != []
    decreases |steps|, 0
  {
    Rewritten(ReplaceAll(s, steps[0]), steps[1..])
  }

  function EscapeLine(s: string): string {
    Rewritten(s, ESCAPES)
  }

  lemma RewriteOne(s: string, step: Rewrite, rest: seq<Rewrite>)
    ensures Rewritten(s, [step] + rest) == Rewritten(ReplaceAll(s, step), rest)
    ensures Rewritten(s, []) == s
  {
    hide ReplaceAll;
    assert ([step] + rest)[1..] == rest;
  }

  /** The replacements, one inside the other. */
  lemma EscapeIs(s: string)
    ensures EscapeLine(s) == Trim(Collapse(DropMarkers(DropComments(JoinLines(s)))), Space)
  {
    hide Rewritten, JoinLines, DropComments, DropMarkers, Collapse, Trim;
    var joined := JoinLines(s);
    var cleared := DropComments(joined);
    var plain := DropMarkers(cleared);
    var one: seq<Rewrite> := [Ends];
    var two, three, four := [Spaces] + one, [Markers, Spaces] + one, [Comments, Markers, Spaces] + one;
    assert ESCAPES == [LineBreaks] + four && four == [Comments] + three && three == [Markers] + two && one == [Ends] + [];
    RewriteOne(s, LineBreaks, four);
    RewriteOne(joined, Comments, three);
    RewriteOne(cleared, Markers, two);
    RewriteOne(plain, Spaces, one);
    RewriteOne(Collapse(plain), Ends, []);
    assert EscapeLine(s) == Rewritten(joined, four) == Rewritten(cleared, three) == Rewritten(plain, two);
    assert Rewritten(plain, two) == Rewritten(Collapse(plain), one) == Rewritten(Trim(Collapse(plain), Space), []);
    RewriteOne(Trim(Collapse(plain), Space), Ends, []);
  }

  // ----- comparing -----

  predicate IsWordChar(c: char) {
    'a' <= c <= 'z' || '0' <= c <= '9'
  }

  /** Lower case, as far as it can reach the letters a to z, and the word for an ampersand. */
  function Expand(c: char): string {
    if 'A' <= c <= 'Z' then [(c as int + 32) as char]
    else if c == '\U{212A}' then "k"
    else if c == '\U{0130}' then "i\U{0307}"
    else if c == '&' then " and "
    else [c]
  }

  function Expanded(s: string): string
    decreases |s|, 1
  {
    if s == [] then [] else ExpandedFrom(s)
  }

  function ExpandedFrom(s: string): string
    requires s != []
    decreases |s|, 0
  {
    Expand(s[0]) + Expanded(s[1..])
  }

  /** Words with one space between them; `gap` says that other characters were just passed. */
  function Words(s: string, started: bool, gap: bool): string
    decreases |s|, 1
  {
    if s == [] then [] else WordsFrom(s, started, gap)
  }

  function WordsFrom(s: string, started: bool, gap: bool): string
    requires s != []
    decreases |s|, 0
  {
    if IsWordChar(s[0]) then (if started && gap then " " else "") + [s[0]] + Words(s[1..], true, false)
    else Words(s[1..], started, true)
  }

  function Comparable(s: string): string {
    Words(Expanded(s), false, false)
  }

  // ----- items -----

  datatype Item = Item(
    id: string, item: string, archived: bool, addedAt: Option<string>, source: Option<string>,
    notes: Option<string>, archivedAt: Option<string>, archiveReason: Option<string>)

  datatype MemoryList = MemoryList(listId: string, title: string, items: seq<Item>)

  predicate IsHex(s: string) {
    forall i :: 0 <= i < |s| ==> '0' <= s[i] <= '9' || 'a' <= s[i] <= 'f'
  }

  predicate IsItemId(id: string) {
    |id| == 20 && "mli_" <= id && IsHex(id[4..])
  }

  /** The first 16 hexadecimal digits of a hash of list and item. */
  type Digest = string -> string

  ghost predicate IsDigest(digest: Digest) {
    forall s :: |digest(s)| == 16 && IsHex(digest(s))
  }

  function ItemId(listId: string, item: string, digest: Digest): string {
    "mli_" + digest(listId + ":" + Comparable(item))
  }

  function SafeItemId(listId: string, item: string, parsed: Option<string>, digest: Digest): string {
    if parsed.Some? && IsItemId(parsed.value) then parsed.value else ItemId(listId, item, digest)
  }

  // ----- printing -----

  predicate Present(o: Option<string>) {
    o.Some? && o.value != ""
  }

  function Escaped(o: Option<string>): Option<string> {
    if Present(o) then Some(EscapeLine(o.value)) else None
  }

  function MetaLine(key: string, value: string): string {
    "  - " + key + ": " + value
  }

  function MetaLines(key: string, value: Option<string>): seq<string> {
    if value.Some? then [MetaLine(key, value.value)] else []
  }

  function Stamp(o: Option<string>): Option<string> {
    if Present(o) then o else None
  }

  function ItemLine(mark: char, text: string, id: string): string {
    "- [" + [mark] + "] " + text + " <!-- memory-list-item:" + id + " -->"
  }

  function MarkOf(x: Item): char {
    if x.archived then 'x' else ' '
  }

  function RenderItem(x: Item): seq<string> {
    [ItemLine(MarkOf(x), EscapeLine(x.item), x.id)]
    + MetaLines("added", Stamp(x.addedAt)) + MetaLines("source", Escaped(x.source)) + MetaLines("notes", Escaped(x.notes))
    + MetaLines("archived", Stamp(x.archivedAt)) + MetaLines("archive_reason", Escaped(x.archiveReason))
  }

  function RenderItems(items: seq<Item>): seq<string>
    decreases |items|, 1
  {
    if items == [] then [] else RenderToLast(items)
  }

  function RenderToLast(items: seq<Item>): seq<string>
    requires items != []
    decreases |items|, 0
  {
    RenderItems(items[..|items| - 1]) + RenderItem(items[|items| - 1])
  }

  function MarkerForList(listId: string): string {
    "<!-- memory-list:v1 list_id=\"" + listId + "\" -->"
  }

  function HeaderLines(list: MemoryList): seq<string> {
    ["# " + list.title, "", MarkerForList(list.listId), ""]
  }

  function RenderList(list: MemoryList): string {
    TrimEnd(Join(HeaderLines(list) + RenderItems(list.items), '\n'), Space) + "\n"
  }

  method RenderMemoryList(list: MemoryList) returns (text: string)
    ensures text == RenderList(list)
  {
    hide RenderItem, HeaderLines;
    var lines := HeaderLines(list);
    for i := 0 to |list.items|
      invariant lines == HeaderLines(list) + RenderItems(list.items[..i])
    {
      assert list.items[..i + 1][..i] == list.items[..i];
      lines := lines + RenderItem(list.items[i]);
    }
    assert list.items[..|list.items|] == list.items;
    text := TrimEnd(Join(lines, '\n'), Space) + "\n";
  }

  // ----- parsing -----

  function LineEnd(s: string, i: nat): (end: nat)
    requires i <= |s|
    ensures i <= end <= |s|
    decreases |s| - i
  {
    if i < |s| && !Terminator(s[i]) then LineEnd(s, i + 1) else i
  }

  /** `#` at the start of a line, white space that may cross lines, then the rest of the line reached. */
  function TitleAt(s: string, i: nat): Option<string>
    requires i < |s|
  {
    var after := SkipSpace(s[i + 1..]);
    if (i == 0 || Terminator(s[i - 1])) && s[i] == '#' && after != s[i + 1..] && after != [] then
      Some(Trim(after[..LineEnd(after, 0)], Space))
    else None
  }

  function TitleFrom(s: string, i: nat): Option<string>
    decreases |s| - i, 1
  {
    if i >= |s| then None else TitleAtOrAfter(s, i)
  }

  function TitleAtOrAfter(s: string, i: nat): Option<string>
    requires i < |s|
    decreases |s| - i, 0
  {
    if TitleAt(s, i).Some? then TitleAt(s, i) else TitleFrom(s, i + 1)
  }

  /** How many characters an id can have here. */
  function IdRun(s: string): (n: nat)
    ensures n <= |s|
  {
    if s != [] && s[0] != '>' && !Space(s[0]) then 1 + IdRun(s[1..]) else 0
  }

  /** An id, then white space, then the end of the comment and of the line; `--` before a `>` ends it too. */
  function ClosedId(r: string): Option<string> {
    var n := IdRun(r);
    if n < |r| && r[n] == '>' then
      if n >= 3 && r[n - 2] == '-' && r[n - 1] == '-' && SkipSpace(r[n + 1..]) == [] then Some(r[..n - 2]) else None
    else
      var close := SkipSpace(r[n..]);
      if n >= 1 && "-->" <= close && SkipSpace(close[3..]) == [] then Some(r[..n]) else None
  }

  function NamedId(inner: string): Option<string> {
    if "memory-list-item:" <= inner then ClosedId(inner[17..]) else None
  }

  /** The id in an item comment that is alone on the rest of its line. */
  function CommentId(s: string): Option<string> {
    if "<!--" <= s then NamedId(SkipSpace(s[4..])) else None
  }

  datatype Tail = NoTail | Bare | WithId(id: string)

  /** White space to the end of the line, with or without an item comment in it. */
  function TailOf(s: string): Tail {
    var rest := SkipSpace(s);
    if rest == [] then Bare
    else
      var id := CommentId(rest);
      if id.Some? then WithId(id.value) else NoTail
  }

  /** The lazy match of the text: the shortest one, of at least `n` characters, that leaves a tail. */
  function TextEnd(s: string, n: nat): (end: Option<nat>)
    requires n >= 1
    ensures end.Some? ==> n <= end.value <= |s|
    decreases |s| + 1 - n, 1
  {
    if n > |s| || Terminator(s[n - 1]) then None else TextEndAtOrAfter(s, n)
  }

  function TextEndAtOrAfter(s: string, n: nat): (end: Option<nat>)
    requires 1 <= n <= |s|
    ensures end.Some? ==> n <= end.value <= |s|
    decreases |s| + 1 - n, 0
  {
    if !TailOf(s[n..]).NoTail? then Some(n) else TextEnd(s, n + 1)
  }

  datatype ItemMatch = ItemMatch(mark: char, text: string, id: Option<string>)

  /** Gives white space back, one character at a time, until the text matches. */
  function MatchText(mark: char, s: string, k: nat): Option<ItemMatch>
    requires k <= |s|
  {
    if k == 0 then None
    else
      var end := TextEnd(s[k..], 1);
      if end.Some? then
        var tail := TailOf(s[k..][end.value..]);
        Some(ItemMatch(mark, s[k..][..end.value], if tail.WithId? then Some(tail.id) else None))
      else MatchText(mark, s, k - 1)
  }

  function MatchBox(box: string): Option<ItemMatch> {
    if |box| < 3 || box[0] != '[' || box[1] !in " xX" || box[2] != ']' then None
    else MatchText(box[1], box[3..], |box[3..]| - |SkipSpace(box[3..])|)
  }

  /** A dash, white space, a box, white space, and text with an optional item comment after it. */
  function MatchItem(line: string): Option<ItemMatch> {
    if "-" <= line && SkipSpace(line[1..]) != line[1..] then MatchBox(SkipSpace(line[1..])) else None
  }

  datatype Metadata = Metadata(key: string, value: string)

  function KeyRun(s: string): (n: nat)
    ensures n <= |s|
  {
    if s != [] && ('a' <= s[0] <= 'z' || s[0] == '_') then 1 + KeyRun(s[1..]) else 0
  }

  /** The value: past white space, to the first terminator after which only white space follows. */
  function MatchValue(key: string, s: string): Option<Metadata> {
    var value := SkipSpace(s);
    var end := LineEnd(value, 0);
    if SkipSpace(value[end..]) == [] then Some(Metadata(key, value[..end])) else None
  }

  function MatchKey(s: string): Option<Metadata> {
    var n := KeyRun(s);
    if n == 0 || n == |s| || s[n] != ':' then None else MatchValue(s[..n], s[n + 1..])
  }

  /** Two characters of white space, a dash, white space, a key, a colon and a value. */
  function MatchMetadata(line: string): Option<Metadata> {
    if |line| < 3 || !Space(line[0]) || !Space(line[1]) || line[2] != '-' || SkipSpace(line[3..]) == line[3..] then None
    else MatchKey(SkipSpace(line[3..]))
  }

  function OrNull(value: string): Option<string> {
    if value == "" then None else Some(value)
  }

  function Apply(x: Item, m: Metadata): Item {
    if m.key == "added" then x.(addedAt := OrNull(m.value))
    else if m.key == "source" then x.(source := OrNull(m.value))
    else if m.key == "notes" then x.(notes := OrNull(m.value))
    else if m.key == "archived" then x.(archivedAt := OrNull(m.value), archived := true)
    else if m.key == "archive_reason" then x.(archiveReason := OrNull(m.value))
    else x
  }

  function NewItem(listId: string, m: ItemMatch, digest: Digest): Item {
    var text := EscapeLine(m.text);
    Item(SafeItemId(listId, text, m.id, digest), text, m.mark != ' ', None, None, None, None, None)
  }

  /** One line: a new item, metadata of the current one, or nothing. */
  function Feed(listId: string, items: seq<Item>, line: string, digest: Digest): seq<Item> {
    var m := MatchItem(line);
    if m.Some? then items + [NewItem(listId, m.value, digest)]
    else
      var meta := MatchMetadata(line);
      if items != [] && meta.Some? then items[..|items| - 1] + [Apply(items[|items| - 1], meta.value)] else items
  }

  function FeedAll(listId: string, items: seq<Item>, lines: seq<string>, digest: Digest): seq<Item>
    decreases |lines|, 1
  {
    if lines == [] then items else FeedFrom(listId, items, lines, digest)
  }

  function FeedFrom(listId: string, items: seq<Item>, lines: seq<string>, digest: Digest): seq<Item>
    requires lines != []
    decreases |lines|, 0
  {
    hide Feed;
    FeedAll(listId, Feed(listId, items, lines[0], digest), lines[1..], digest)
  }

  function TitleOf(markdown: string, fallback: string): string {
    var t := TitleFrom(markdown, 0);
    if t.Some? then t.value else fallback
  }

  /** The list id comes from the file name; `fallback` is the title made from it. */
  function ParseList(listId: string, fallback: string, markdown: string, digest: Digest): MemoryList {
    MemoryList(listId, TitleOf(markdown, fallback), FeedAll(listId, [], Split(markdown, '\n'), digest))
  }

  lemma FeedMore(listId: string, items: seq<Item>, lines: seq<string>, i: nat, digest: Digest)
    requires i < |lines|
    ensures FeedAll(listId, items, lines[i..], digest) == FeedAll(listId, Feed(listId, items, lines[i], digest), lines[i + 1..], digest)
  {
    hide Feed;
    assert lines[i..][1..] == lines[i + 1..];
  }

  method ParseMemoryListMarkdown(listId: string, fallback: string, markdown: string, digest: Digest) returns (list: MemoryList)
    ensures list == ParseList(listId, fallback, markdown, digest)
  {
    hide MatchItem, MatchMetadata, Apply, NewItem, FeedAll;
    var lines := Split(markdown, '\n');
    var items: seq<Item> := [];
    assert lines[0..] == lines;
    for i := 0 to |lines|
      invariant FeedAll(listId, items, lines[i..], digest) == FeedAll(listId, [], lines, digest)
    {
      FeedMore(listId, items, lines, i, digest);
      var itemMatch := MatchItem(lines[i]);
      if itemMatch.Some? {
        items := items + [NewItem(listId, itemMatch.value, digest)];
        continue;
      }
      var metadata := if items != [] then MatchMetadata(lines[i]) else None;
      if metadata.Some? {
        items := items[..|items| - 1] + [Apply(items[|items| - 1], metadata.value)];
      }
    }
    assert lines[|lines|..] == [];
    FedAll(listId, items, digest);
    list := MemoryList(listId, TitleOf(markdown, fallback), items);
  }

  lemma FedAll(listId: string, items: seq<Item>, digest: Digest)
    ensures FeedAll(listId, items, [], digest) == items
  {}

  // ----- adding -----

  datatype ListDocument = ListDocument(markdown: string, version: nat)

  datatype AddResult = AddResult(duplicate: bool, itemId: string, doc: Option<ListDocument>)

  function ReadList(listId: string, fallback: string, doc: Option<ListDocument>, digest: Digest): MemoryList {
    if doc.Some? then ParseList(listId, fallback, doc.value.markdown, digest) else MemoryList(listId, fallback, [])
  }

  /** The first item that compares equal. */
  function FindComparable(items: seq<Item>, comparable: string): (r: Option<Item>)
    ensures r.Some? ==> r.value in items && Comparable(r.value.item) == comparable
    ensures r.None? ==> forall x <- items :: Comparable(x.item) != comparable
  {
    if items == [] then None
    else if Comparable(items[0].item) == comparable then Some(items[0])
    else
      var r := FindComparable(items[1..], comparable);
      assert items == [items[0]] + items[1..];
      r
  }

  datatype Addition = Addition(item: string, notes: Option<string>, sourceMessageId: Option<string>, now: string)

  function AddedItem(listId: string, a: Addition, digest: Digest): Item {
    Item(ItemId(listId, a.item, digest), EscapeLine(a.item), false, Some(a.now),
      if Present(a.sourceMessageId) then Some("owner_message:" + EscapeLine(a.sourceMessageId.value)) else None,
      Escaped(a.notes), None, None)
  }

  /** The list document after an add: unchanged for a duplicate, else rewritten as the next version. */
  function AddMemoryListItem(listId: string, fallback: string, doc: Option<ListDocument>, a: Addition, digest: Digest): AddResult {
    var list := ReadList(listId, fallback, doc, digest);
    var found := FindComparable(list.items, Comparable(a.item));
    if found.Some? then AddResult(true, found.value.id, doc)
    else
      var item := AddedItem(listId, a, digest);
      var version := if doc.Some? then doc.value.version + 1 else 1;
      AddResult(false, item.id, Some(ListDocument(RenderList(list.(items := list.items + [item])), version)))
  }
}
