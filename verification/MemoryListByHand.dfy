/** Lists as people write them: items without an id, other spellings of the id comment, metadata and titles. */
module MemoryListByHand {
  import opened Wrappers
  import opened Lines
  import opened MemoryLists
  import opened MemoryListText
  import opened MemoryListLines

  // ----- items without an id -----

  lemma NoTailWithin(t: string, n: nat)
    requires Clean(t) && 0 < n < |t|
    ensures TailOf(t[n..]).NoTail?
  {
    hide NoMarker, TrimStart, StartsMarker, SingleSpaced;
    SkipInside(t[n..], []);
    assert t[n..] + [] == t[n..];
    var v := SkipSpace(t[n..]);
    NoMarkerSuffix(t, n);
    NoMarkerSuffix(t[n..], |t[n..]| - |v|);
    StartsNoMarker(v);
    assert !("<!--" <= v) by { assert !StartsMarker(v); NoStart(v); }
  }

  lemma NoStart(v: string)
    ensures !StartsMarker(v) ==> !("<!--" <= v)
  {}

  lemma CleanLetter(t: string, i: nat)
    requires Clean(t) && i < |t|
    ensures !Terminator(t[i])
  {
    hide NoMarker, SingleSpaced, Terminator;
    CleanHasNoTerminator(t, i);
  }

  lemma {:induction false} WholeText(t: string, n: nat)
    requires Clean(t) && 1 <= n <= |t|
    ensures TextEnd(t, n) == Some(|t|)
    decreases |t| - n
  {
    hide TailOf, Clean, Terminator;
    CleanLetter(t, n - 1);
    if n == |t| {
      NothingLeft(t);
    } else {
      NoTailWithin(t, n);
      WholeText(t, n + 1);
    }
  }

  lemma WholeMatch(mark: char, t: string)
    requires Clean(t) && t != []
    ensures MatchText(mark, " " + t, 1) == Some(ItemMatch(mark, t, None)) && |" " + t| - |SkipSpace(" " + t)| == 1
  {
    WholeText(t, 1);
    SkipOne(t);
    SkipNone(t);
    NothingLeft(t);
    hide TextEnd, TailOf, Clean, TrimStart;
    assert (" " + t)[1..] == t;
  }

  predicate IsMark(mark: char) {
    mark == ' ' || mark == 'x' || mark == 'X'
  }

  lemma MarksAre(mark: char)
    ensures mark in " xX" <==> IsMark(mark)
  {
    assert " xX"[0] == ' ' && " xX"[1] == 'x' && " xX"[2] == 'X';
  }

  /** A checkbox line without an id comment is an item with this mark and text, and no id. */
  lemma ItemWithoutId(mark: char, t: string)
    requires Clean(t) && t != [] && IsMark(mark)
    ensures MatchItem("- [" + [mark] + "] " + t) == Some(ItemMatch(mark, t, None))
  {
    hide *;
    MarksAre(mark);
    WholeMatch(mark, t);
    BoxedText(mark, " " + t);
    assert "- [" + [mark] + "] " + t == "- " + ("[" + [mark] + "]" + (" " + t));
  }

  lemma OtherBox(mark: char, t: string)
    requires !IsMark(mark)
    ensures MatchBox("[" + [mark] + "] " + t) == None && !Space(("[" + [mark] + "] " + t)[0])
  {
    hide MatchText, TrimStart;
    MarksAre(mark);
    assert ("[" + [mark] + "] " + t)[1] == mark;
  }

  /** Any other mark in the box makes the line no item. */
  lemma OtherMark(mark: char, t: string)
    requires !IsMark(mark)
    ensures MatchItem("- [" + [mark] + "] " + t) == None
  {
    hide *;
    OtherBox(mark, t);
    DashMatches("[" + [mark] + "] " + t);
    assert "- [" + [mark] + "] " + t == "- " + ("[" + [mark] + "] " + t);
  }

  /** Such an item is active exactly if its box is blank, and gets an id from the list and its text. */
  lemma ItemIsRead(listId: string, items: seq<Item>, mark: char, t: string, digest: Digest)
    requires Clean(t) && t != [] && IsMark(mark)
    ensures Feed(listId, items, "- [" + [mark] + "] " + t, digest) ==
      items + [Item("mli_" + digest(listId + ":" + Comparable(t)), t, mark != ' ', None, None, None, None, None)]
  {
    ItemWithoutId(mark, t);
    CleanIsFixed(t);
    hide MatchItem, EscapeLine, Comparable, Clean, MatchMetadata;
  }

  // ----- the id comment -----

  lemma {:induction false} IdRunStops(id: string, rest: string)
    requires forall i :: 0 <= i < |id| ==> id[i] != '>' && !Space(id[i])
    requires rest == [] || rest[0] == '>' || Space(rest[0])
    ensures IdRun(id + rest) == |id|
  {
    if id == [] {
      assert id + rest == rest;
    } else {
      assert (id + rest)[1..] == id[1..] + rest;
      IdRunStops(id[1..], rest);
    }
  }

  predicate NoGap(id: string) {
    forall i :: 0 <= i < |id| ==> id[i] != '>' && !Space(id[i])
  }

  /** White space around the id is not needed; the id is everything before the dashes, and after them only white space may follow. */
  lemma CompactId(id: string, after: string)
    requires NoGap(id)
    ensures ClosedId(id + "-->" + after) == if id != "" && SkipSpace(after) == [] then Some(id) else None
  {
    var r := id + "-->" + after;
    assert r == (id + "--") + (">" + after);
    IdRunStops(id + "--", ">" + after);
    hide IdRun, TrimStart;
    var n := |id| + 2;
    assert r[n] == '>' && r[n - 1] == '-' && r[n - 2] == '-' && r[n + 1..] == after && r[..n - 2] == id;
  }

  lemma SpacedId(id: string, after: string)
    requires NoGap(id)
    ensures ClosedId(id + " -->" + after) == if id != "" && SkipSpace(after) == [] then Some(id) else None
  {
    var r := id + " -->" + after;
    assert r == id + (" -->" + after);
    IdRunStops(id, " -->" + after);
    SkipOne("-->" + after);
    SkipNone("-->" + after);
    hide IdRun, TrimStart;
    assert r[|id|] == ' ' && r[|id|..] == " " + ("-->" + after) && r[..|id|] == id;
    assert ("-->" + after)[3..] == after;
  }

  /** One dash does not close the comment. */
  lemma OneDashIsOpen(id: string, after: string)
    requires NoGap(id) && id != "" && id[|id| - 1] != '-'
    ensures ClosedId(id + "->" + after) == None
  {
    var r := id + "->" + after;
    assert r == (id + "-") + (">" + after);
    IdRunStops(id + "-", ">" + after);
    hide IdRun, TrimStart;
    var n := |id| + 1;
    assert r[n] == '>' && r[n - 2] == id[|id| - 1];
  }

  // ----- metadata -----

  /** What each key sets, and nothing else; an empty value unsets it, and the archive date archives the item. */
  lemma MetadataSets(x: Item, value: string)
    ensures var v := if value == "" then None else Some(value);
      && Apply(x, Metadata("added", value)) == x.(addedAt := v)
      && Apply(x, Metadata("source", value)) == x.(source := v)
      && Apply(x, Metadata("notes", value)) == x.(notes := v)
      && Apply(x, Metadata("archived", value)) == x.(archivedAt := v, archived := true)
      && Apply(x, Metadata("archive_reason", value)) == x.(archiveReason := v)
  {}

  lemma OtherKeysAreIgnored(x: Item, key: string, value: string)
    requires key !in ["added", "source", "notes", "archived", "archive_reason"]
    ensures Apply(x, Metadata(key, value)) == x
  {
    var keys := ["added", "source", "notes", "archived", "archive_reason"];
    assert keys[0] in keys && keys[1] in keys && keys[2] in keys && keys[3] in keys && keys[4] in keys;
  }

  /** Two characters of white space come before the dash, and white space after it. */
  lemma MetadataNeedsIndent(line: string)
    requires |line| < 4 || !Space(line[0]) || !Space(line[1]) || line[2] != '-' || !Space(line[3])
    ensures MatchMetadata(line) == None
  {
    if |line| >= 3 { assert line[3..] == [] || line[3..][0] == line[3]; }
  }

  // ----- titles -----

  /** A title starts with a hash at the start of a line, and white space after it with something behind. */
  predicate StartsTitle(s: string, i: nat)
    requires i < |s|
  {
    && (i == 0 || Terminator(s[i - 1])) && s[i] == '#'
    && i + 1 < |s| && Space(s[i + 1]) && exists k :: i + 1 < k < |s| && !Space(s[k])
  }

  lemma {:induction false} SkipFinds(s: string)
    ensures SkipSpace(s) != [] <==> exists k :: 0 <= k < |s| && !Space(s[k])
  {
    if s != [] && Space(s[0]) {
      SkipFinds(s[1..]);
      if SkipSpace(s[1..]) != [] {
        var k :| 0 <= k < |s[1..]| && !Space(s[1..][k]);
        assert !Space(s[k + 1]);
      }
      if k :| 0 <= k < |s| && !Space(s[k]) { assert !Space(s[1..][k - 1]); }
    }
  }

  lemma TitleStarts(s: string, i: nat)
    requires i < |s|
    ensures TitleAt(s, i).Some? <==> StartsTitle(s, i)
  {
    var rest := s[i + 1..];
    SkipFinds(rest);
    SkipMoves(rest);
    hide TrimStart, LineEnd, Trim, Space, Terminator;
    assert rest != [] ==> rest[0] == s[i + 1];
    if k :| 0 <= k < |rest| && !Space(rest[k]) { assert s[i + 1 + k] == rest[k]; }
    if k :| i + 1 < k < |s| && !Space(s[k]) { assert rest[k - i - 1] == s[k]; }
  }

  lemma SkipMoves(s: string)
    ensures SkipSpace(s) != s <==> s != [] && Space(s[0])
  {}

  /** The title is that of the first place where one starts; without any it is the fallback. */
  lemma {:induction false} TitleIsFirst(s: string, i: nat)
    requires i <= |s|
    ensures TitleFrom(s, i).None? <==> forall k :: i <= k < |s| ==> !StartsTitle(s, k)
    ensures TitleFrom(s, i).Some? ==>
      exists k :: i <= k < |s| && StartsTitle(s, k) && TitleFrom(s, i) == TitleAt(s, k) && forall j :: i <= j < k ==> !StartsTitle(s, j)
    decreases |s| - i
  {
    hide TitleAt, StartsTitle;
    if i < |s| {
      TitleStarts(s, i);
      assert TitleFrom(s, i) == TitleAtOrAfter(s, i);
      TitleIsFirst(s, i + 1);
    }
  }
}
