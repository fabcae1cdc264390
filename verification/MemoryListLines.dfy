/** What the parser reads from each line the printer writes. */
module MemoryListLines {
  import opened Wrappers
  import opened Lines
  import opened MemoryLists
  import opened MemoryListText

  // ----- white space -----

  lemma SkipNone(s: string)
    requires s == [] || !Space(s[0])
    ensures SkipSpace(s) == s
  {}

  lemma SkipOne(s: string)
    ensures SkipSpace(" " + s) == SkipSpace(s)
  {
    assert (" " + s)[1..] == s;
  }

  /** Skipping stops inside `s` when `s` has something to stop at. */
  lemma {:induction false} SkipInside(s: string, u: string)
    requires s != [] && !Space(s[|s| - 1])
    ensures SkipSpace(s + u) == SkipSpace(s) + u && SkipSpace(s) != []
  {
    if Space(s[0]) {
      assert (s + u)[1..] == s[1..] + u;
      SkipInside(s[1..], u);
    }
  }

  // ----- the comment with the id -----

  function IdComment(id: string): string {
    "<!-- memory-list-item:" + id + " -->"
  }

  lemma {:induction false} IdRunOf(id: string, rest: string)
    requires forall i :: 0 <= i < |id| ==> id[i] != '>' && !Space(id[i])
    requires rest != [] && rest[0] == ' '
    ensures IdRun(id + rest) == |id|
  {
    if id == [] {
      assert id + rest == rest;
    } else {
      assert (id + rest)[1..] == id[1..] + rest;
      IdRunOf(id[1..], rest);
    }
  }

  lemma ItemIdLetters(id: string)
    requires IsItemId(id)
    ensures forall i :: 0 <= i < |id| ==> id[i] != '>' && !Space(id[i]) && !Terminator(id[i]) && id[i] != '<'
  {
    forall i | 0 <= i < |id| ensures id[i] != '>' && !Space(id[i]) && !Terminator(id[i]) && id[i] != '<' {
      if i >= 4 { assert id[i] == id[4..][i - 4]; } else { assert id[i] == "mli_"[i]; }
    }
  }

  lemma ClosedIdOf(id: string)
    requires IsItemId(id)
    ensures ClosedId(id + " -->") == Some(id)
  {
    ItemIdLetters(id);
    IdRunOf(id, " -->");
    SkipClose();
    hide IdRun, TrimStart, IsHex;
    var r := id + " -->";
    assert r[20..] == " -->" && r[..20] == id;
    SkipNothing();
  }

  lemma SkipNothing()
    ensures SkipSpace([]) == []
  {}

  lemma NamedIdOf(r: string)
    ensures NamedId("memory-list-item:" + r) == ClosedId(r)
  {
    hide ClosedId;
    assert ("memory-list-item:" + r)[17..] == r;
  }

  lemma CommentIdOf(inner: string)
    requires inner != [] && !Space(inner[0])
    ensures CommentId("<!--" + (" " + inner)) == NamedId(inner)
  {
    hide NamedId;
    assert ("<!--" + (" " + inner))[4..] == " " + inner;
    SkipOne(inner);
    SkipNone(inner);
  }

  lemma CommentOfId(id: string)
    requires IsItemId(id)
    ensures CommentId(IdComment(id)) == Some(id)
  {
    hide CommentId, NamedId, ClosedId, IsItemId;
    var r := id + " -->";
    assert IdComment(id) == "<!--" + (" " + ("memory-list-item:" + r));
    CommentIdOf("memory-list-item:" + r);
    NamedIdOf(r);
    ClosedIdOf(id);
  }

  lemma SkipClose()
    ensures SkipSpace(" -->") == "-->"
  {
    SkipOne("-->");
    SkipNone("-->");
    assert " -->" == " " + "-->";
  }

  lemma TailOfId(id: string)
    requires IsItemId(id)
    ensures TailOf(" " + IdComment(id)) == WithId(id)
  {
    hide CommentId;
    CommentOfId(id);
    SkipOne(IdComment(id));
    SkipNone(IdComment(id));
  }

  // ----- an item line -----

  lemma NoStraddle(v: string, u: string)
    requires v != [] && !StartsMarker(v) && u != [] && u[0] == ' '
    ensures !("<!--" <= v + u)
  {
    assert |v| >= 4 ==> (v + u)[..4] == v[..4];
    assert (v + u)[|v|] == ' ';
  }

  lemma NoTailInside(t: string, u: string, n: nat)
    requires NoMarker(t) && Trimmed(t) && 0 < n < |t| && u != [] && u[0] == ' '
    ensures TailOf((t + u)[n..]).NoTail?
  {
    hide NoMarker, TrimStart, StartsMarker;
    assert (t + u)[n..] == t[n..] + u;
    SkipInside(t[n..], u);
    var v := SkipSpace(t[n..]);
    NoMarkerSuffix(t, n);
    NoMarkerSuffix(t[n..], |t[n..]| - |v|);
    StartsNoMarker(v);
    NoStraddle(v, u);
  }

  lemma StartsNoMarker(s: string)
    requires NoMarker(s) && s != []
    ensures !StartsMarker(s)
  {}

  lemma {:induction false} CleanHasNoTerminator(t: string, i: nat)
    requires SingleSpaced(t) && i < |t|
    ensures !Terminator(t[i])
  {
    if i > 0 { CleanHasNoTerminator(t[1..], i - 1); }
  }

  lemma {:induction false} TextEndOf(t: string, u: string, n: nat)
    requires NoMarker(t) && SingleSpaced(t) && Trimmed(t) && 1 <= n <= |t| && u != [] && u[0] == ' ' && !TailOf(u).NoTail?
    ensures TextEnd(t + u, n) == Some(|t|)
    decreases |t| - n
  {
    hide TailOf, NoMarker, SingleSpaced, Trimmed, Terminator;
    CleanHasNoTerminator(t, n - 1);
    if n == |t| {
      assert (t + u)[n..] == u;
    } else {
      NoTailInside(t, u, n);
      TextEndOf(t, u, n + 1);
    }
  }

  lemma MatchTextOf(mark: char, t: string, id: string)
    requires Clean(t) && t != [] && IsItemId(id)
    ensures MatchText(mark, " " + (t + (" " + IdComment(id))), 1) == Some(ItemMatch(mark, t, Some(id)))
  {
    TailOfId(id);
    var u := " " + IdComment(id);
    var s := " " + (t + u);
    TextEndOf(t, u, 1);
    hide TailOf, TextEnd, Clean, IsItemId, IdComment;
    assert s[1..] == t + u && (t + u)[..|t|] == t && (t + u)[|t|..] == u;
  }

  lemma BoxMatches(mark: char, s: string)
    requires mark in " xX"
    ensures MatchBox("[" + [mark] + "]" + s) == MatchText(mark, s, |s| - |SkipSpace(s)|)
  {
    hide MatchText, TrimStart;
    var box := "[" + [mark] + "]" + s;
    assert box[3..] == s && box[0] == '[' && box[1] == mark && box[2] == ']';
  }

  lemma DashMatches(box: string)
    requires box != [] && !Space(box[0])
    ensures MatchItem("- " + box) == MatchBox(box)
  {
    hide MatchBox;
    assert ("- " + box)[1..] == " " + box;
    SkipOne(box);
    SkipNone(box);
  }

  lemma ItemLineIs(mark: char, text: string, id: string)
    ensures ItemLine(mark, text, id) == "- " + ("[" + [mark] + "]" + (" " + (text + (" " + IdComment(id)))))
  {}

  lemma BoxedText(mark: char, s: string)
    requires mark in " xX"
    ensures MatchItem("- " + ("[" + [mark] + "]" + s)) == MatchText(mark, s, |s| - |SkipSpace(s)|)
  {
    hide MatchItem, MatchBox, MatchText, TrimStart;
    DashMatches("[" + [mark] + "]" + s);
    BoxMatches(mark, s);
  }

  lemma OneSpace(t: string, u: string)
    requires t != [] && !Space(t[0])
    ensures SkipSpace(" " + (t + u)) == t + u
  {
    SkipOne(t + u);
    SkipNone(t + u);
  }

  /** A printed item line reads back as its mark, its text and its id. */
  lemma ItemLineMatches(mark: char, t: string, id: string)
    requires Clean(t) && t != [] && IsItemId(id) && mark in " xX"
    ensures MatchItem(ItemLine(mark, t, id)) == Some(ItemMatch(mark, t, Some(id)))
  {
    MatchTextOf(mark, t, id);
    OneSpace(t, " " + IdComment(id));
    hide MatchItem, MatchText, TrimStart, IsItemId, NoMarker, SingleSpaced, ItemLine, IdComment;
    ItemLineIs(mark, t, id);
    BoxedText(mark, " " + (t + (" " + IdComment(id))));
  }

  // ----- an item line without text -----

  /** What follows the first character of an item comment starts no other comment. */
  lemma CommentLetters(id: string)
    requires IsItemId(id)
    ensures var c := IdComment(id);
      && (forall i :: 1 <= i < |c| ==> c[i] != '<' && !Terminator(c[i])) && c[|c| - 1] == '>' && c[0] == '<'
  {
    ItemIdLetters(id);
    var c := IdComment(id);
    hide IsItemId, IsHex;
    assert c == "<!-- memory-list-item:" + id + " -->";
    forall i | 1 <= i < |c| ensures c[i] != '<' && !Terminator(c[i]) {
      if i < 22 { assert c[i] == "<!-- memory-list-item:"[i]; }
      else if i < 22 + |id| { assert c[i] == id[i - 22]; }
      else { assert c[i] == " -->"[i - 22 - |id|]; }
    }
  }

  lemma NoTailAfter(c: string, n: nat)
    requires 0 < n < |c| && (forall i :: 1 <= i < |c| ==> c[i] != '<') && !Space(c[|c| - 1])
    ensures TailOf(c[n..]).NoTail?
  {
    SkipInside(c[n..], []);
    assert c[n..] + [] == c[n..];
    var v := SkipSpace(c[n..]);
    assert v[0] == c[|c| - |v|];
    hide TrimStart, NamedId;
  }

  lemma {:induction false} TextEndWhole(c: string, n: nat)
    requires 1 <= n <= |c| && (forall i :: 1 <= i < |c| ==> c[i] != '<' && !Terminator(c[i])) && !Terminator(c[0]) && !Space(c[|c| - 1])
    ensures TextEnd(c, n) == Some(|c|)
    decreases |c| - n
  {
    hide TailOf, Terminator, Space;
    if n == |c| {
      NothingLeft(c);
    } else {
      NoTailAfter(c, n);
      TextEndWhole(c, n + 1);
    }
  }

  lemma NoTextMatches(mark: char, id: string)
    requires IsItemId(id) && mark in " xX"
    ensures MatchItem(ItemLine(mark, "", id)) == Some(ItemMatch(mark, IdComment(id), None))
  {
    var c := IdComment(id);
    CommentLetters(id);
    SpaceLetters();
    TextEndWhole(c, 1);
    SkipOne(" " + c);
    SkipOne(c);
    SkipNone(c);
    NothingLeft(c);
    hide IdComment, MatchItem, TextEnd, TailOf, IsItemId, TrimStart;
    BoxedText(mark, " " + (" " + c));
    ItemLineIs(mark, "", id);
    assert "" + (" " + c) == " " + c;
    var s := " " + (" " + c);
    assert s[2..] == c;
  }

  lemma SpaceLetters()
    ensures !Space('<') && !Space('>') && !Terminator('<')
  {}

  lemma NothingLeft(c: string)
    ensures c[..|c|] == c && c[|c|..] == [] && TailOf([]) == Bare
  {
    SkipNothing();
  }

  lemma {:induction false} JoinNothing(s: string)
    requires '\n' !in s
    ensures JoinLines(s) == s
    decreases |s|
  {
    if s != [] {
      assert s[0] in s;
      assert |s| > 1 ==> s[1] in s;
      JoinNothing(s[1..]);
      assert [s[0]] + s[1..] == s;
    }
  }

  lemma {:induction false} CommentEndIs(s: string, i: nat)
    requires 3 <= |s| && i <= |s| - 3 && s[|s| - 3..] == "-->" && forall k :: i <= k < |s| - 1 ==> s[k] != '>' && !Terminator(s[k])
    ensures CommentEnd(s, i) == Some(|s|)
    decreases |s| - i
  {
    if i < |s| - 3 {
      assert s[i..][2] == s[i + 2] != '>';
      CommentEndIs(s, i + 1);
    }
  }

  lemma CommentCloses(id: string)
    requires IsItemId(id)
    ensures CommentEnd(IdComment(id), 4) == Some(|IdComment(id)|) && '\n' !in IdComment(id)
  {
    var c := IdComment(id);
    ItemIdLetters(id);
    CommentLetters(id);
    hide IsItemId;
    assert c[|c| - 3..] == "-->";
    forall k | 4 <= k < |c| - 1 ensures c[k] != '>' {
      if k < 22 { assert c[k] == "<!-- memory-list-item:"[k]; }
      else if k < 22 + |id| { assert c[k] == id[k - 22]; }
      else { assert c[k] == " -->"[k - 22 - |id|]; }
    }
    assert !Terminator(c[0]);
    CommentEndIs(c, 4);
  }

  /** Without text the whole comment is taken for the text, and escaping leaves nothing of it. */
  lemma CommentEscapes(id: string)
    requires IsItemId(id)
    ensures EscapeLine(IdComment(id)) == []
  {
    var c := IdComment(id);
    CommentCloses(id);
    JoinNothing(c);
    assert "<!--" <= c;
    hide JoinLines, CommentEnd, IsItemId, IdComment;
    assert c[|c|..] == [] && DropComments([]) == [];
    assert DropComments(c) == " ";
    assert DropMarkers(" ") == " " by { assert " "[1..] == []; }
    SkipNothing();
    assert Collapse(" ") == " " by { assert " "[1..] == []; }
    assert SkipSpace(" ") == [] by { SkipOne([]); }
  }

  // ----- a metadata line -----

  predicate IsMetaLine(line: string) {
    "  - " <= line
  }

  lemma MetaIsNoItem(line: string)
    requires line == [] || line[0] != '-'
    ensures MatchItem(line).None?
  {
    hide MatchBox;
  }

  predicate KeyLetters(key: string) {
    forall i :: 0 <= i < |key| ==> 'a' <= key[i] <= 'z' || key[i] == '_'
  }

  lemma {:induction false} KeyRunOf(key: string, rest: string)
    requires KeyLetters(key) && rest != [] && rest[0] == ':'
    ensures KeyRun(key + rest) == |key|
  {
    if key == [] {
      assert key + rest == rest;
    } else {
      assert (key + rest)[1..] == key[1..] + rest;
      KeyRunOf(key[1..], rest);
    }
  }

  predicate OneLine(v: string) {
    forall i :: 0 <= i < |v| ==> !Terminator(v[i])
  }

  lemma {:induction false} LineEndOf(v: string, i: nat)
    requires i <= |v| && OneLine(v)
    ensures LineEnd(v, i) == |v|
    decreases |v| - i
  {
    if i < |v| { LineEndOf(v, i + 1); }
  }

  lemma MetaValue(key: string, value: string)
    requires value != [] && Trimmed(value) && OneLine(value)
    ensures MatchValue(key, " " + value) == Some(Metadata(key, value))
  {
    SkipOne(value);
    SkipNone(value);
    LineEndOf(value, 0);
    SkipNothing();
    hide LineEnd, TrimStart, OneLine;
    assert value[|value|..] == [] && value[..|value|] == value;
  }

  lemma MetaKey(key: string, rest: string)
    requires key != [] && KeyLetters(key)
    ensures MatchKey(key + (":" + rest)) == MatchValue(key, rest)
  {
    hide MatchValue, KeyLetters;
    KeyRunOf(key, ":" + rest);
    var s := key + (":" + rest);
    assert s[..|key|] == key && s[|key|] == ':' && s[|key| + 1..] == rest;
  }

  lemma MetaDash(s: string)
    requires s != [] && !Space(s[0])
    ensures MatchMetadata("  -" + (" " + s)) == MatchKey(s)
  {
    hide MatchKey;
    SkipOne(s);
    SkipNone(s);
    var line := "  -" + (" " + s);
    assert line[3..] == " " + s;
  }

  lemma MetaLineIs(key: string, value: string)
    ensures MetaLine(key, value) == "  -" + (" " + (key + (":" + (" " + value))))
    ensures IsMetaLine(MetaLine(key, value))
  {
    assert MetaLine(key, value) == "  - " + (key + ": " + value);
  }

  /** A printed metadata line reads back as its key and its value. */
  lemma MetaLineMatches(key: string, value: string)
    requires key != [] && KeyLetters(key) && value != [] && Trimmed(value) && OneLine(value)
    ensures MatchItem(MetaLine(key, value)).None? && MatchMetadata(MetaLine(key, value)) == Some(Metadata(key, value))
  {
    var s := key + (":" + (" " + value));
    MetaLineIs(key, value);
    assert MetaLine(key, value)[0] == ' ';
    MetaIsNoItem(MetaLine(key, value));
    MetaValue(key, value);
    MetaKey(key, " " + value);
    assert s[0] == key[0];
    KeyStarts(key);
    hide *;
    MetaDash(s);
  }

  lemma KeyStarts(key: string)
    requires key != [] && KeyLetters(key)
    ensures !Space(key[0])
  {}
}
