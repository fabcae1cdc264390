/** Escaping and comparing item text. */
module MemoryListText {
  import opened Wrappers
  import opened Lines
  import opened MemoryLists

  // ----- clean text -----

  predicate StartsMarker(s: string) {
    "<!--" <= s || "-->" <= s
  }

  predicate NoMarker(s: string) {
    s == [] || (!StartsMarker(s) && NoMarker(s[1..]))
  }

  /** The only white space is single spaces. */
  predicate SingleSpaced(s: string) {
    s == [] || (SingleSpaced(s[1..]) && (Space(s[0]) ==> s[0] == ' ' && (|s| == 1 || !Space(s[1]))))
  }

  predicate Trimmed(s: string) {
    s == [] || (!Space(s[0]) && !Space(s[|s| - 1]))
  }

  predicate Clean(s: string) {
    NoMarker(s) && SingleSpaced(s) && Trimmed(s)
  }

  /** Text without spaces that starts the output was at the start of the input. */
  lemma {:induction false} DropPrefix(s: string, w: string)
    requires w <= DropMarkers(s) && ' ' !in w
    ensures w <= s
  {
    if w != [] && s != [] {
      assert w[0] in w;
      assert DropMarkers(s)[0] == w[0];
      var rest := DropMarkers(s[1..]);
      assert DropMarkers(s) == [s[0]] + rest;
      assert DropMarkers(s)[1..] == rest;
      assert w[1..] <= rest;
      DropPrefix(s[1..], w[1..]);
      assert s == [s[0]] + s[1..] && w == [w[0]] + w[1..];
    }
  }

  lemma MarkerLetters()
    ensures ' ' !in "<!--" && ' ' !in "-->"
  {}

  lemma {:induction false} MarkersAreDropped(s: string)
    ensures NoMarker(DropMarkers(s))
    decreases |s|
  {
    if s == [] {
    } else if "<!--" <= s {
      MarkersAreDropped(s[4..]);
      SpaceStartsNoMarker(DropMarkers(s[4..]));
    } else if "-->" <= s {
      MarkersAreDropped(s[3..]);
      SpaceStartsNoMarker(DropMarkers(s[3..]));
    } else {
      MarkersAreDropped(s[1..]);
      MarkerLetters();
      var r := DropMarkers(s);
      assert r == [s[0]] + DropMarkers(s[1..]);
      assert r[1..] == DropMarkers(s[1..]);
      if "<!--" <= r { DropPrefix(s, "<!--"); }
      if "-->" <= r { DropPrefix(s, "-->"); }
    }
  }

  lemma SpaceStartsNoMarker(rest: string)
    requires NoMarker(rest)
    ensures NoMarker(" " + rest)
  {
    assert (" " + rest)[1..] == rest;
    assert (" " + rest)[0] == ' ';
  }

  lemma {:induction false} CollapsePrefix(s: string, w: string)
    requires w <= Collapse(s) && ' ' !in w
    ensures w <= s
  {
    if w != [] && s != [] {
      assert w[0] in w;
      assert Collapse(s)[0] == w[0];
      var rest := Collapse(s[1..]);
      assert Collapse(s) == [s[0]] + rest;
      assert Collapse(s)[1..] == rest;
      assert w[1..] <= rest;
      CollapsePrefix(s[1..], w[1..]);
      assert s == [s[0]] + s[1..] && w == [w[0]] + w[1..];
    }
  }

  lemma {:induction false} NoMarkerSuffix(s: string, n: nat)
    requires NoMarker(s) && n <= |s|
    ensures NoMarker(s[n..])
  {
    if n > 0 {
      NoMarkerSuffix(s[1..], n - 1);
      assert s[1..][n - 1..] == s[n..];
    }
  }

  lemma {:induction false} NoMarkerPrefix(s: string, n: nat)
    requires NoMarker(s) && n <= |s|
    ensures NoMarker(s[..n])
  {
    if n > 0 {
      NoMarkerPrefix(s[1..], n - 1);
      assert s[..n][1..] == s[1..][..n - 1];
      assert StartsMarker(s[..n]) ==> StartsMarker(s);
    }
  }

  lemma {:induction false} CollapseKeepsNoMarker(s: string)
    requires NoMarker(s)
    ensures NoMarker(Collapse(s))
    decreases |s|
  {
    if s == [] {
    } else if Space(s[0]) {
      var rest := SkipSpace(s[1..]);
      NoMarkerSuffix(s, |s| - |rest|);
      CollapseKeepsNoMarker(rest);
      SpaceStartsNoMarker(Collapse(rest));
    } else {
      CollapseKeepsNoMarker(s[1..]);
      MarkerLetters();
      var r := Collapse(s);
      assert r == [s[0]] + Collapse(s[1..]);
      assert r[1..] == Collapse(s[1..]);
      if "<!--" <= r { CollapsePrefix(s, "<!--"); }
      if "-->" <= r { CollapsePrefix(s, "-->"); }
    }
  }

  lemma {:induction false} CollapseIsSingleSpaced(s: string)
    ensures SingleSpaced(Collapse(s)) && (s != [] ==> Collapse(s) != [] && (Space(Collapse(s)[0]) <==> Space(s[0])))
    decreases |s|
  {
    if s != [] {
      var rest := if Space(s[0]) then SkipSpace(s[1..]) else s[1..];
      CollapseIsSingleSpaced(rest);
      var c: string := if Space(s[0]) then " " else [s[0]];
      assert Collapse(s) == c + Collapse(rest);
      assert (c + Collapse(rest))[1..] == Collapse(rest);
    }
  }

  lemma {:induction false} SingleSpacedSuffix(s: string, n: nat)
    requires SingleSpaced(s) && n <= |s|
    ensures SingleSpaced(s[n..])
  {
    if n > 0 {
      SingleSpacedSuffix(s[1..], n - 1);
      assert s[1..][n - 1..] == s[n..];
    }
  }

  lemma {:induction false} SingleSpacedPrefix(s: string, n: nat)
    requires SingleSpaced(s) && n <= |s|
    ensures SingleSpaced(s[..n])
  {
    if n > 0 {
      SingleSpacedPrefix(s[1..], n - 1);
      assert s[..n][1..] == s[1..][..n - 1];
    }
  }

  lemma TrimIsSlice(s: string) returns (i: nat, n: nat)
    ensures i + n <= |s| && Trim(s, Space) == s[i..][..n] && Trimmed(Trim(s, Space))
  {
    var t := TrimStart(s, Space);
    i, n := |s| - |t|, |TrimEnd(t, Space)|;
  }

  /** What escaping leaves is clean, whatever came in. */
  lemma EscapedIsClean(s: string)
    ensures Clean(EscapeLine(s))
  {
    hide EscapeLine, JoinLines, DropComments, DropMarkers, Collapse, NoMarker, SingleSpaced, Trim, Trimmed;
    EscapeIs(s);
    var dropped := DropMarkers(DropComments(JoinLines(s)));
    var collapsed := Collapse(dropped);
    MarkersAreDropped(DropComments(JoinLines(s)));
    CollapseKeepsNoMarker(dropped);
    CollapseIsSingleSpaced(dropped);
    var i, n := TrimIsSlice(collapsed);
    NoMarkerSuffix(collapsed, i);
    SingleSpacedSuffix(collapsed, i);
    NoMarkerPrefix(collapsed[i..], n);
    SingleSpacedPrefix(collapsed[i..], n);
  }

  lemma {:induction false} CleanSteps(s: string)
    requires NoMarker(s) && SingleSpaced(s)
    ensures JoinLines(s) == s && DropComments(s) == s && DropMarkers(s) == s && Collapse(s) == s
  {
    if s != [] {
      CleanSteps(s[1..]);
      assert [s[0]] + s[1..] == s;
    }
  }

  /** Escaping changes nothing exactly when the text is clean; so escaping twice is escaping once. */
  lemma EscapeFixed(s: string)
    ensures EscapeLine(s) == s <==> Clean(s)
    ensures EscapeLine(EscapeLine(s)) == EscapeLine(s)
  {
    EscapedIsClean(s);
    CleanIsFixed(EscapeLine(s));
    if Clean(s) { CleanIsFixed(s); }
  }

  lemma CleanIsFixed(s: string)
    requires Clean(s)
    ensures EscapeLine(s) == s
  {
    hide EscapeLine, JoinLines, DropComments, DropMarkers, Collapse;
    EscapeIs(s);
    CleanSteps(s);
    TrimFixed(s, Space);
  }

  // ----- comparing escaped text -----

  /** Comparison from a state of the scan: a word was seen, and a gap since. */
  function Norm(s: string, started: bool, gap: bool): string {
    Words(Expanded(s), started, gap)
  }

  function StateAfter(e: string, started: bool, gap: bool): (bool, bool) {
    if e == [] then (started, gap)
    else if IsWordChar(e[0]) then StateAfter(e[1..], true, false)
    else StateAfter(e[1..], started, true)
  }

  lemma {:induction false} WordsConcat(e: string, u: string, started: bool, gap: bool)
    ensures var st := StateAfter(e, started, gap); Words(e + u, started, gap) == Words(e, started, gap) + Words(u, st.0, st.1)
  {
    if e == [] {
      assert e + u == u;
    } else {
      assert (e + u)[1..] == e[1..] + u;
      if IsWordChar(e[0]) { WordsConcat(e[1..], u, true, false); } else { WordsConcat(e[1..], u, started, true); }
    }
  }

  lemma {:induction false} ExpandedConcat(a: string, b: string)
    ensures Expanded(a + b) == Expanded(a) + Expanded(b)
  {
    hide Expand;
    if a == [] {
      assert a + b == b;
    } else {
      assert (a + b)[1..] == a[1..] + b;
      ExpandedConcat(a[1..], b);
    }
  }

  lemma NormCons(s: string, started: bool, gap: bool) returns (out: string, st: bool, g: bool)
    requires s != []
    ensures (st, g) == StateAfter(Expand(s[0]), started, gap) && out == Words(Expand(s[0]), started, gap)
    ensures Norm(s, started, gap) == out + Norm(s[1..], st, g)
  {
    hide Expand, Words, StateAfter;
    assert Expanded(s) == ExpandedFrom(s) == Expand(s[0]) + Expanded(s[1..]);
    WordsConcat(Expand(s[0]), Expanded(s[1..]), started, gap);
    var state := StateAfter(Expand(s[0]), started, gap);
    out, st, g := Words(Expand(s[0]), started, gap), state.0, state.1;
  }

  lemma SpaceIsSilent(s: string, started: bool, gap: bool)
    requires s != [] && Space(s[0])
    ensures Norm(s, started, gap) == Norm(s[1..], started, true)
  {
    assert Expand(s[0]) == [s[0]] && !IsWordChar(s[0]);
    var e := Expanded(s);
    assert e == ExpandedFrom(s) == [s[0]] + Expanded(s[1..]);
    assert e[1..] == Expanded(s[1..]);
    assert Words(e, started, gap) == WordsFrom(e, started, gap) == Words(e[1..], started, true);
  }

  lemma {:induction false} JoinLinesCompares(s: string, started: bool, gap: bool)
    ensures Norm(JoinLines(s), started, gap) == Norm(s, started, gap)
    decreases |s|
  {
    hide Norm;
    if s == [] {
    } else if s[0] == '\n' || "\r\n" <= s {
      var n := if s[0] == '\n' then 1 else 2;
      SpaceIsSilent(s, started, gap);
      if n == 2 { SpaceIsSilent(s[1..], started, true); }
      JoinLinesCompares(s[n..], started, true);
      assert JoinLines(s) == " " + JoinLines(s[n..]) && s[1..][n - 1..] == s[n..];
      SpaceIsSilent(JoinLines(s), started, gap);
      assert JoinLines(s)[1..] == JoinLines(s[n..]);
    } else {
      var out, st, g := NormCons(s, started, gap);
      JoinLinesCompares(s[1..], st, g);
      var joined := JoinLines(s);
      assert joined == [s[0]] + JoinLines(s[1..]);
      var out', st', g' := NormCons(joined, started, gap);
      assert joined[1..] == JoinLines(s[1..]);
    }
  }

  lemma {:induction false} SkipCompares(s: string, started: bool)
    ensures Norm(SkipSpace(s), started, true) == Norm(s, started, true)
  {
    hide Norm;
    if s != [] && Space(s[0]) {
      SkipCompares(s[1..], started);
      SpaceIsSilent(s, started, true);
    }
  }

  lemma {:induction false} CollapseCompares(s: string, started: bool, gap: bool)
    ensures Norm(Collapse(s), started, gap) == Norm(s, started, gap)
    decreases |s|
  {
    hide Norm;
    if s == [] {
    } else if Space(s[0]) {
      var rest := SkipSpace(s[1..]);
      SpaceIsSilent(s, started, gap);
      SkipCompares(s[1..], started);
      CollapseCompares(rest, started, true);
      SpaceIsSilent(Collapse(s), started, gap);
      assert Collapse(s) == " " + Collapse(rest);
      assert Collapse(s)[1..] == Collapse(rest);
    } else {
      var out, st, g := NormCons(s, started, gap);
      CollapseCompares(s[1..], st, g);
      var c := Collapse(s);
      assert c == [s[0]] + Collapse(s[1..]);
      var out', st', g' := NormCons(c, started, gap);
      assert c[1..] == Collapse(s[1..]);
    }
  }

  lemma {:induction false} UnstartedGap(s: string)
    ensures Words(s, false, true) == Words(s, false, false)
  {
  }

  lemma {:induction false} BlankIsSilent(s: string, started: bool, gap: bool)
    requires AllBlank(s, Space)
    ensures Norm(s, started, gap) == []
  {
    hide Norm;
    if s != [] {
      SpaceIsSilent(s, started, gap);
      BlankIsSilent(s[1..], started, true);
    } else {
      NormNothing(started, gap);
    }
  }

  lemma NormNothing(started: bool, gap: bool)
    ensures Norm([], started, gap) == []
  {}

  lemma {:induction false} LeadingBlanks(front: string, s: string)
    requires AllBlank(front, Space)
    ensures Norm(front + s, false, true) == Norm(s, false, true)
  {
    hide Norm;
    if front == [] {
      assert front + s == s;
    } else {
      SpaceIsSilent(front + s, false, true);
      assert (front + s)[1..] == front[1..] + s;
      LeadingBlanks(front[1..], s);
    }
  }

  lemma TrailingBlanks(s: string, back: string, started: bool, gap: bool)
    requires AllBlank(back, Space)
    ensures Norm(s + back, started, gap) == Norm(s, started, gap)
  {
    hide Words, Expanded, StateAfter;
    ExpandedConcat(s, back);
    WordsConcat(Expanded(s), Expanded(back), started, gap);
    var st := StateAfter(Expanded(s), started, gap);
    BlankIsSilent(back, st.0, st.1);
  }

  lemma TrimCompares(s: string)
    ensures Comparable(Trim(s, Space)) == Comparable(s)
  {
    hide Trim, Words, Expanded;
    var front, back := TrimCuts(s, Space);
    var t := Trim(s, Space);
    UnstartedGap(Expanded(s));
    UnstartedGap(Expanded(t));
    TrailingBlanks(front + t, back, false, true);
    LeadingBlanks(front, t);
  }

  lemma {:induction false} JoinPrefix(s: string, w: string)
    requires w <= JoinLines(s) && ' ' !in w
    ensures w <= s
    decreases |s|
  {
    if w != [] && s != [] {
      assert w[0] in w;
      assert JoinLines(s)[0] == w[0];
      var rest := JoinLines(s[1..]);
      assert JoinLines(s) == [s[0]] + rest;
      assert JoinLines(s)[1..] == rest;
      assert w[1..] <= rest;
      JoinPrefix(s[1..], w[1..]);
      assert s == [s[0]] + s[1..] && w == [w[0]] + w[1..];
    }
  }

  lemma {:induction false} JoinKeepsNoMarker(s: string)
    requires NoMarker(s)
    ensures NoMarker(JoinLines(s))
    decreases |s|
  {
    if s == [] {
    } else if s[0] == '\n' {
      JoinKeepsNoMarker(s[1..]);
      SpaceStartsNoMarker(JoinLines(s[1..]));
    } else if "\r\n" <= s {
      NoMarkerSuffix(s, 2);
      JoinKeepsNoMarker(s[2..]);
      SpaceStartsNoMarker(JoinLines(s[2..]));
    } else {
      JoinKeepsNoMarker(s[1..]);
      MarkerLetters();
      var r := JoinLines(s);
      assert r == [s[0]] + JoinLines(s[1..]);
      assert r[1..] == JoinLines(s[1..]);
      if "<!--" <= r { JoinPrefix(s, "<!--"); }
      if "-->" <= r { JoinPrefix(s, "-->"); }
    }
  }

  lemma {:induction false} NothingToDrop(s: string)
    requires NoMarker(s)
    ensures DropComments(s) == s && DropMarkers(s) == s
  {
    if s != [] {
      NothingToDrop(s[1..]);
      assert [s[0]] + s[1..] == s;
    }
  }

  /** Text without a comment marker compares as its escaped form does. */
  lemma EscapedCompares(s: string)
    requires NoMarker(s)
    ensures Comparable(EscapeLine(s)) == Comparable(s)
  {
    hide EscapeLine, JoinLines, DropComments, DropMarkers, Collapse, NoMarker, Trim, Words, Expanded;
    EscapeIs(s);
    JoinKeepsNoMarker(s);
    NothingToDrop(JoinLines(s));
    TrimCompares(Collapse(JoinLines(s)));
    CollapseCompares(JoinLines(s), false, false);
    JoinLinesCompares(s, false, false);
  }

  // ----- what compares equal -----

  /** Small letters and digits; a space only between two of them. */
  predicate Spaced(s: string) {
    s == [] || (Spaced(s[1..]) && ('a' <= s[0] <= 'z' || '0' <= s[0] <= '9' || (s[0] == ' ' && |s| > 1 && s[1] != ' ')))
  }

  predicate IsPhrase(s: string) {
    Spaced(s) && (s != [] ==> s[0] != ' ')
  }

  lemma SpacedCons(c: char, s: string)
    ensures Spaced([c] + s) <==> Spaced(s) && ('a' <= c <= 'z' || '0' <= c <= '9' || (c == ' ' && s != [] && s[0] != ' '))
  {
    assert ([c] + s)[1..] == s;
  }

  lemma {:induction false} WordsArePhrases(s: string, started: bool, gap: bool)
    ensures Spaced(Words(s, started, gap)) && (!started ==> IsPhrase(Words(s, started, gap)))
    decreases |s|
  {
    hide Spaced;
    if s == [] {
      assert Spaced([]) by { NothingSpaced(); }
    } else if IsWordChar(s[0]) {
      var rest := Words(s[1..], true, false);
      WordsArePhrases(s[1..], true, false);
      SpacedCons(s[0], rest);
      SpacedCons(' ', [s[0]] + rest);
      assert " " + [s[0]] + rest == [' '] + ([s[0]] + rest) && "" + [s[0]] + rest == [s[0]] + rest;
    } else {
      WordsArePhrases(s[1..], started, true);
    }
  }

  lemma NothingSpaced()
    ensures Spaced([])
  {}

  /** What is compared is a phrase. */
  lemma ComparableIsPhrase(s: string)
    ensures IsPhrase(Comparable(s))
  {
    WordsArePhrases(Expanded(s), false, false);
  }

  lemma {:induction false} LettersExpand(s: string)
    requires forall i :: 0 <= i < |s| ==> 'a' <= s[i] <= 'z' || '0' <= s[i] <= '9' || s[i] == ' '
    ensures Expanded(s) == s
  {
    if s != [] { LettersExpand(s[1..]); }
  }

  lemma {:induction false} SpacedExpands(s: string)
    requires Spaced(s)
    ensures Expanded(s) == s
  {
    if s != [] { SpacedExpands(s[1..]); }
  }

  lemma {:induction false} SpacedWords(s: string, started: bool, gap: bool)
    requires Spaced(s) && (s != [] && s[0] == ' ' ==> started && !gap)
    ensures Words(s, started, gap) == (if started && gap && s != [] then " " else "") + s
    decreases |s|
  {
    if s != [] {
      var rest := s[1..];
      if s[0] == ' ' {
        SpacedWords(rest, started, true);
        assert " " + rest == s;
      } else {
        SpacedWords(rest, true, false);
        assert [s[0]] + ("" + rest) == s;
      }
    }
  }

  /** A phrase compares as it is, and so two phrases compare equal only if they are the same. */
  lemma PhraseIsFixed(s: string)
    requires IsPhrase(s)
    ensures Comparable(s) == s
  {
    SpacedExpands(s);
    SpacedWords(s, false, false);
    assert "" + s == s;
  }

  lemma ExpandedOne(c: char)
    ensures Expanded([c]) == Expand(c)
  {
    hide Expand;
    assert [c][1..] == [];
    assert Expanded([c]) == ExpandedFrom([c]) && Expanded([]) == [];
  }

  lemma SameExpansion(a: string, c: string, d: string, b: string)
    requires Expanded(c) == Expanded(d)
    ensures Comparable(a + c + b) == Comparable(a + d + b)
  {
    hide Words, Expanded;
    ExpandedConcat(a + c, b);
    ExpandedConcat(a, c);
    ExpandedConcat(a + d, b);
    ExpandedConcat(a, d);
  }

  /** Case does not matter. */
  lemma CaseIsIgnored(a: string, c: char, b: string)
    requires 'A' <= c <= 'Z'
    ensures Comparable(a + [c] + b) == Comparable(a + [(c as int - 'A' as int + 'a' as int) as char] + b)
  {
    var d := (c as int - 'A' as int + 'a' as int) as char;
    ExpandedOne(c);
    ExpandedOne(d);
    SameExpansion(a, [c], [d], b);
  }

  /** An ampersand is the word "and". */
  lemma AmpersandIsAnd(a: string, b: string)
    ensures Comparable(a + "&" + b) == Comparable(a + " and " + b)
  {
    LettersExpand(" and ");
    ExpandedOne('&');
    SameExpansion(a, "&", " and ", b);
  }

  /** Any other character that is no letter or digit separates words. */
  lemma OtherCharactersSeparate(a: string, c: char, b: string)
    requires !('a' <= c <= 'z') && !('0' <= c <= '9') && !('A' <= c <= 'Z') && c != '&' && c != '\U{212A}' && c != '\U{0130}'
    ensures Comparable(a + [c] + b) == Comparable(a + " " + b)
  {
    hide Words;
    OneExpansion(a, c, b);
    OneExpansion(a, ' ', b);
    WordsOfGap(Expanded(a), c, Expanded(b), false, false);
  }

  lemma OneExpansion(a: string, c: char, b: string)
    requires Expand(c) == [c]
    ensures Expanded(a + [c] + b) == Expanded(a) + [c] + Expanded(b)
  {
    ExpandedConcat(a + [c], b);
    ExpandedConcat(a, [c]);
    ExpandedOne(c);
  }

  lemma WordsOfGap(e: string, c: char, u: string, started: bool, gap: bool)
    requires !IsWordChar(c)
    ensures Words(e + [c] + u, started, gap) == Words(e + " " + u, started, gap)
  {
    WordsConcat(e, [c] + u, started, gap);
    WordsConcat(e, " " + u, started, gap);
    assert e + [c] + u == e + ([c] + u) && e + " " + u == e + (" " + u);
    assert ([c] + u)[1..] == u && (" " + u)[1..] == u;
  }

  /** The two capitals outside ASCII that turn into a small ASCII letter: the Kelvin sign, and the dotted I, whose dot separates words. */
  lemma OddCapitals(a: string, b: string)
    ensures Comparable(a + "\U{212A}" + b) == Comparable(a + "k" + b)
    ensures Comparable(a + "\U{0130}" + b) == Comparable(a + "i\U{0307}" + b)
  {
    ExpandedOne('\U{212A}');
    ExpandedOne('k');
    SameExpansion(a, "\U{212A}", "k", b);
    ExpandedOne('\U{0130}');
    ExpandedConcat("i", "\U{0307}");
    ExpandedOne('i');
    ExpandedOne('\U{0307}');
    assert "i" + "\U{0307}" == "i\U{0307}";
    SameExpansion(a, "\U{0130}", "i\U{0307}", b);
  }

  // ----- comments -----

  /** The inside of a comment: one line, and no end of a comment before the one that follows it. */
  predicate IsInside(x: string) {
    forall k :: 0 <= k < |x| ==> !Terminator(x[k]) && !("-->" <= (x + "-->")[k..])
  }

  lemma {:induction false} CommentEndsAt(front: string, x: string, b: string, i: nat)
    requires IsInside(x) && i <= |x|
    ensures CommentEnd(front + x + "-->" + b, |front| + i) == Some(|front| + |x| + 3)
    decreases |x| - i
  {
    var s := front + x + "-->" + b;
    assert s[|front| + i..] == (x + "-->")[i..] + b;
    if i < |x| {
      assert s[|front| + i] == x[i];
      NotYet((x + "-->")[i..], b);
      CommentEndsAt(front, x, b, i + 1);
    } else {
      assert (x + "-->")[i..] == "-->";
    }
  }

  lemma NotYet(t: string, b: string)
    requires |t| >= 3
    ensures "-->" <= t + b <==> "-->" <= t
  {}

  /** A comment on one line becomes a space, up to its first end. */
  lemma CommentIsDropped(x: string, b: string)
    requires IsInside(x)
    ensures DropComments("<!--" + x + "-->" + b) == " " + DropComments(b)
  {
    var s := "<!--" + x + "-->" + b;
    CommentEndsAt("<!--", x, b, 0);
    hide CommentEnd;
    assert "<!--" <= s && s[4 + |x| + 3..] == b;
  }

  /** What is left of a comment marker becomes a space. */
  lemma MarkersBecomeSpaces(b: string)
    ensures DropMarkers("<!--" + b) == " " + DropMarkers(b) && DropMarkers("-->" + b) == " " + DropMarkers(b)
  {
    assert ("<!--" + b)[4..] == b && ("-->" + b)[3..] == b;
    assert ("-->" + b)[0] == '-' && "-->" <= "-->" + b;
  }

  /** An item id is the prefix and sixteen hexadecimal digits. */
  lemma ItemIdIff(id: string)
    ensures IsItemId(id) <==> |id| == 20 && id[..4] == "mli_" && forall i :: 4 <= i < 20 ==> id[i] in "0123456789abcdef"
  {
    if |id| == 20 {
      assert "mli_" <= id <==> id[..4] == "mli_";
      assert forall i :: 4 <= i < 20 ==> id[i] == id[4..][i - 4];
      forall c: char ensures c in "0123456789abcdef" <==> '0' <= c <= '9' || 'a' <= c <= 'f' { HexDigits(c); }
    }
  }

  lemma HexDigits(c: char)
    ensures c in "0123456789abcdef" <==> '0' <= c <= '9' || 'a' <= c <= 'f'
  {
    var d := "0123456789abcdef";
    if '0' <= c <= '9' { assert d[c as int - '0' as int] == c; }
    if 'a' <= c <= 'f' { assert d[c as int - 'a' as int + 10] == c; }
  }
}
