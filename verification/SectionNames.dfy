/** Heading lines and the names made from them: what is read, slugs, and ids. */
module SectionNames {
  import opened Wrappers
  import opened Lines
  import opened Utf16
  import opened MarkdownSections
  import opened SectionFences

  // ----- a heading line read back -----

  function Hashes(n: nat): (r: Text)
    ensures |r| == n && forall i :: 0 <= i < n ==> r[i] == HASH
  {
    seq(n, _ => HASH)
  }

  function HeadingText(level: nat, text: Text): Text {
    Hashes(level) + [SPACE] + text
  }

  lemma {:induction false} RunShifts(front: Text, text: Text, i: nat, c: Unit)
    requires i <= |text|
    ensures RunLength(front + text, |front| + i, c) == RunLength(text, i, c)
    decreases |text| - i
  {
    if i < |text| {
      assert (front + text)[|front| + i] == text[i];
      RunShifts(front, text, i + 1, c);
    }
  }

  lemma {:induction false} BlankShifts(front: Text, text: Text, i: nat)
    requires i <= |text|
    ensures BlankRun(front + text, |front| + i) == BlankRun(text, i)
    decreases |text| - i
  {
    if i < |text| {
      assert (front + text)[|front| + i] == text[i];
      BlankShifts(front, text, i + 1);
    }
  }

  lemma ClosingShifts(front: Text, text: Text, i: nat)
    requires i <= |text|
    ensures IsClosing(front + text, |front| + i) == IsClosing(text, i)
  {
    var hashes := i + BlankRun(text, i);
    var end := hashes + RunLength(text, hashes, HASH);
    BlankShifts(front, text, i);
    RunShifts(front, text, hashes, HASH);
    BlankShifts(front, text, end);
    hide RunLength, BlankRun;
  }

  lemma {:induction false} LazyShifts(front: Text, text: Text, i: nat)
    requires i <= |text|
    ensures LazyEnd(front + text, |front| + i) == |front| + LazyEnd(text, i)
    decreases |text| - i
  {
    ClosingShifts(front, text, i);
    hide IsClosing;
    if !IsClosing(text, i) { LazyShifts(front, text, i + 1); }
  }

  lemma {:induction false} HashRun(level: nat, rest: Text, i: nat)
    requires i <= level && (rest == [] || rest[0] != HASH)
    ensures RunLength(Hashes(level) + rest, i, HASH) == level - i
    decreases level - i
  {
    if i < level { HashRun(level, rest, i + 1); }
  }

  /** Blanks, closing hashes and blanks end the text after its first unit, or blanks alone do. */
  ghost predicate HasClosing(text: Text) {
    exists i :: 1 <= i < |text| && Closes(text, i)
  }

  lemma {:induction false} LazyStops(text: Text, i: nat)
    requires 1 <= i <= |text|
    ensures LazyEnd(text, i) == |text| <==> forall k :: i <= k < |text| ==> !Closes(text, k)
    decreases |text| - i
  {
    ClosesIsClosing(text, i);
    hide IsClosing, Closes;
    if i < |text| && !IsClosing(text, i) { LazyStops(text, i + 1); }
  }

  lemma NoTerminatorIn(front: Text, text: Text)
    requires forall i :: 0 <= i < |text| ==> !IsTerminatorCode(text[i])
    ensures !exists i :: |front| <= i < |front + text| && IsTerminatorCode((front + text)[i])
  {
    assert forall i :: |front| <= i < |front + text| ==> (front + text)[i] == text[i - |front|];
  }

  lemma LazySlice(front: Text, text: Text)
    requires text != []
    ensures LazyEnd(front + text, |front| + 1) == |front| + LazyEnd(text, 1)
    ensures (front + text)[|front|..|front| + LazyEnd(text, 1)] == text[..LazyEnd(text, 1)]
  {
    LazyShifts(front, text, 1);
    hide LazyEnd;
  }

  lemma HeadingParts(level: nat, text: Text)
    requires text != [] && !IsSpace(text[0])
    ensures var front, line := Hashes(level) + [SPACE], HeadingText(level, text);
      line == front + text && |front| == level + 1 && RunLength(line, 0, HASH) == level && BlankRun(line, level) == 1
  {
    var front, line := Hashes(level) + [SPACE], HeadingText(level, text);
    assert line == Hashes(level) + ([SPACE] + text);
    HashRun(level, [SPACE] + text, 0);
    OneBlank(front, text, level);
    hide RunLength, BlankRun, IsSpaceCode;
  }

  /** What a heading line is read as, whatever its text ends in. */
  lemma HeadingIs(level: nat, text: Text)
    requires 1 <= level <= 6 && text != [] && !IsSpace(text[0])
    requires forall i :: 0 <= i < |text| ==> !IsTerminatorCode(text[i])
    ensures HeadingOf(HeadingText(level, text)) == Some(HeadingLine(level, Trim(text[..LazyEnd(text, 1)], IsSpace)))
  {
    hide IsClosing, LazyEnd, RunLength, BlankRun, Trim, IsTerminatorCode, IsSpaceCode, Hashes, HeadingText;
    var front := Hashes(level) + [SPACE];
    HeadingParts(level, text);
    NoTerminatorIn(front, text);
    LazySlice(front, text);
  }

  /** A heading line reads back as its level and its text exactly when the text has no closing hashes of its own. */
  lemma HeadingReads(level: nat, text: Text)
    requires 1 <= level <= 6 && text != [] && !IsSpace(text[0]) && !IsSpace(text[|text| - 1])
    requires forall i :: 0 <= i < |text| ==> !IsTerminatorCode(text[i])
    ensures HeadingOf(HeadingText(level, text)) == Some(HeadingLine(level, text)) <==> !HasClosing(text)
  {
    HeadingIs(level, text);
    LazyStops(text, 1);
    TrimFixed(text, IsSpace);
    TrimIsShort(text[..LazyEnd(text, 1)]);
    hide Closes, LazyEnd, Trim, HeadingOf, HeadingText, IsSpaceCode, IsTerminatorCode;
    assert text[..|text|] == text;
  }

  lemma TrimIsShort(t: Text)
    ensures |Trim(t, IsSpace)| <= |t|
  {}

  lemma OneBlank(front: Text, text: Text, level: nat)
    requires front == Hashes(level) + [SPACE] && text != [] && !IsSpace(text[0])
    ensures BlankRun(front + text, level) == 1
  {
    assert (front + text)[level] == SPACE && (front + text)[level + 1] == text[0];
    assert BlankRun(front + text, level + 1) == 0;
  }

  // ----- slugs -----

  /** Small letters and digits, with single dashes between them. */
  predicate IsSlug(s: Text) {
    && (forall i :: 0 <= i < |s| ==> IsSlugUnit(s[i]) || s[i] == DASH)
    && (forall i :: 0 <= i < |s| - 1 ==> IsSlugUnit(s[i]) || IsSlugUnit(s[i + 1]))
    && (s != [] ==> IsSlugUnit(s[|s| - 1]))
  }

  lemma SlugCons(c: Unit, dash: bool, rest: Text)
    requires IsSlugUnit(c) && IsSlug(rest)
    ensures var s := (if dash then [DASH] else []) + [c] + rest; IsSlug(s) && s != [] && (dash || IsSlugUnit(s[0]))
  {}

  lemma {:induction false} DashedIsSlug(t: Text, started: bool, gap: bool)
    ensures var s := Dashed(t, started, gap); IsSlug(s) && (s != [] && !(started && gap) ==> IsSlugUnit(s[0]) || started)
  {
    if t != [] {
      if t[0] == BACKTICK {
        DashedIsSlug(t[1..], started, gap);
      } else if IsSlugUnit(t[0]) {
        DashedIsSlug(t[1..], true, false);
        SlugCons(t[0], started && gap, Dashed(t[1..], true, false));
      } else {
        DashedIsSlug(t[1..], started, true);
      }
    }
  }

  lemma {:induction false} FirstIsNoDash(t: Text, gap: bool)
    ensures Dashed(t, false, gap) == [] || IsSlugUnit(Dashed(t, false, gap)[0])
  {
    if t != [] {
      if t[0] == BACKTICK {
        FirstIsNoDash(t[1..], gap);
      } else if !IsSlugUnit(t[0]) {
        FirstIsNoDash(t[1..], true);
      }
    }
  }

  /** A slug is never empty, starts and ends with a letter or digit, and has no two dashes in a row. */
  lemma SlugIsClean(t: Text)
    ensures var s := SlugPart(t); s != [] && IsSlug(s) && IsSlugUnit(s[0])
  {
    var source := Lower(Trim(t, IsSpace));
    DashedIsSlug(source, false, false);
    FirstIsNoDash(source, false);
    hide Dashed, Lower, Trim;
    SectionIsSlug();
  }

  lemma SectionIsSlug()
    ensures var s := Units("section"); s != [] && IsSlug(s) && IsSlugUnit(s[0])
  {}

  /** The letters and digits of a text, in order. */
  function Letters(t: Text): Text {
    if t == [] then [] else (if 97 <= t[0] <= 122 || 48 <= t[0] <= 57 then [t[0]] else []) + Letters(t[1..])
  }

  lemma LettersCons(c: Unit, t: Text)
    ensures Letters([c] + t) == (if 97 <= c <= 122 || 48 <= c <= 57 then [c] else []) + Letters(t)
  {
    assert ([c] + t)[1..] == t;
  }

  lemma LetterAdded(c: Unit, dash: bool, rest: Text)
    requires IsSlugUnit(c)
    ensures Letters((if dash then [DASH] else []) + [c] + rest) == [c] + Letters(rest)
  {
    LettersCons(c, rest);
    LettersCons(DASH, [c] + rest);
    hide Letters;
    assert [DASH] + [c] + rest == [DASH] + ([c] + rest) && [] + [c] + rest == [c] + rest;
  }

  lemma {:induction false} DashedKeepsLetters(t: Text, started: bool, gap: bool)
    ensures Letters(Dashed(t, started, gap)) == Letters(t)
  {
    if t != [] {
      if t[0] == BACKTICK {
        DashedKeepsLetters(t[1..], started, gap);
      } else if IsSlugUnit(t[0]) {
        DashedKeepsLetters(t[1..], true, false);
        LetterAdded(t[0], started && gap, Dashed(t[1..], true, false));
      } else {
        DashedKeepsLetters(t[1..], started, true);
      }
    }
  }

  /** A slug keeps the letters and digits of its text in order and invents none; without any it is "section". */
  lemma SlugKeepsLetters(t: Text)
    ensures var letters := Letters(Lower(Trim(t, IsSpace)));
      SlugPart(t) == Units("section") || (letters != [] && Letters(SlugPart(t)) == letters)
    ensures Letters(Lower(Trim(t, IsSpace))) == [] ==> SlugPart(t) == Units("section")
  {
    var source := Lower(Trim(t, IsSpace));
    DashedKeepsLetters(source, false, false);
    DashedIsSlug(source, false, false);
    FirstIsNoDash(source, false);
    var slug := Dashed(source, false, false);
    hide Dashed, Lower, Trim;
    if slug != [] { assert Letters(slug) != [] by { assert IsSlugUnit(slug[0]); } }
  }

  lemma {:induction false} DashedFixed(t: Text, started: bool, gap: bool)
    requires IsSlug(t) && (t != [] && !IsSlugUnit(t[0]) ==> started && !gap)
    ensures Dashed(t, started, gap) == (if started && gap && t != [] then [DASH] else []) + t
    decreases |t|
  {
    if t != [] {
      var rest := t[1..];
      assert IsSlug(rest) by {
        forall i | 0 <= i < |rest| - 1 ensures IsSlugUnit(rest[i]) || IsSlugUnit(rest[i + 1]) { assert IsSlugUnit(t[i + 1]) || IsSlugUnit(t[i + 2]); }
      }
      assert |t| > 1 ==> IsSlugUnit(t[0]) || IsSlugUnit(t[1]);
      if IsSlugUnit(t[0]) {
        DashedFixed(rest, true, false);
        assert [t[0]] + rest == t;
      } else {
        DashedFixed(rest, started, true);
        assert t[0] == DASH && [DASH] + rest == t;
      }
    }
  }

  lemma {:induction false} LowerFixed(t: Text)
    requires IsSlug(t) || forall i :: 0 <= i < |t| ==> IsSlugUnit(t[i]) || t[i] == DASH
    ensures Lower(t) == t
  {
    if t != [] { LowerFixed(t[1..]); }
  }

  /** A clean slug is its own slug. */
  lemma SlugFixed(t: Text)
    requires t != [] && IsSlug(t) && IsSlugUnit(t[0])
    ensures SlugPart(t) == t
  {
    hide Dashed, Lower, Trim, IsSpaceCode;
    SlugEnds(t);
    TrimFixed(t, IsSpace);
    LowerFixed(t);
    DashedFixed(t, false, false);
  }

  lemma SlugEnds(t: Text)
    requires t != [] && IsSlug(t) && IsSlugUnit(t[0])
    ensures !IsSpace(t[0]) && !IsSpace(t[|t| - 1])
  {
    assert IsSlugUnit(t[|t| - 1]);
  }

  /** `u` is `t` with some capital letters made small. */
  predicate SameButCase(t: Text, u: Text) {
    |t| == |u| && forall i :: 0 <= i < |t| ==> u[i] == t[i] || (65 <= t[i] <= 90 && u[i] == t[i] + 32)
  }

  lemma {:induction false} LowerIgnoresCase(t: Text, u: Text)
    requires SameButCase(t, u)
    ensures Lower(t) == Lower(u)
  {
    if t != [] { LowerIgnoresCase(t[1..], u[1..]); }
  }

  lemma {:induction false} TrimStartCase(t: Text, u: Text)
    requires SameButCase(t, u)
    ensures SameButCase(TrimStart(t, IsSpace), TrimStart(u, IsSpace))
  {
    if t != [] && IsSpace(t[0]) { TrimStartCase(t[1..], u[1..]); }
  }

  lemma {:induction false} TrimEndCase(t: Text, u: Text)
    requires SameButCase(t, u)
    ensures SameButCase(TrimEnd(t, IsSpace), TrimEnd(u, IsSpace))
  {
    if t != [] && IsSpace(t[|t| - 1]) { TrimEndCase(t[..|t| - 1], u[..|u| - 1]); }
  }

  lemma SlugIgnoresCase(t: Text, u: Text)
    requires SameButCase(t, u)
    ensures SlugPart(t) == SlugPart(u)
  {
    TrimStartCase(t, u);
    TrimEndCase(TrimStart(t, IsSpace), TrimStart(u, IsSpace));
    LowerIgnoresCase(Trim(t, IsSpace), Trim(u, IsSpace));
  }

  // ----- what has the same slug -----

  /** The state of the scan after some units: a letter or digit was seen, and something else since. */
  function DashState(t: Text, started: bool, gap: bool): (bool, bool) {
    if t == [] then (started, gap)
    else if t[0] == BACKTICK then DashState(t[1..], started, gap)
    else if IsSlugUnit(t[0]) then DashState(t[1..], true, false)
    else DashState(t[1..], started, true)
  }

  lemma {:induction false} DashedConcat(t: Text, u: Text, started: bool, gap: bool)
    ensures var st := DashState(t, started, gap); Dashed(t + u, started, gap) == Dashed(t, started, gap) + Dashed(u, st.0, st.1)
  {
    if t == [] {
      assert t + u == u;
    } else {
      assert (t + u)[1..] == t[1..] + u;
      if t[0] == BACKTICK { DashedConcat(t[1..], u, started, gap); }
      else if IsSlugUnit(t[0]) { DashedConcat(t[1..], u, true, false); }
      else { DashedConcat(t[1..], u, started, true); }
    }
  }

  function LowerOne(c: Unit): Text {
    if 65 <= c <= 90 then [c + 32] else if c == 0x212A then [107] else if c == 0x130 then [105, 0x307] else [c]
  }

  lemma {:induction false} LowerConcat(t: Text, u: Text)
    ensures Lower(t + u) == Lower(t) + Lower(u)
  {
    if t == [] {
      assert t + u == u;
    } else {
      assert (t + u)[1..] == t[1..] + u;
      LowerConcat(t[1..], u);
    }
  }

  lemma LowerSingle(c: Unit)
    ensures Lower([c]) == LowerOne(c)
  {
    assert [c][1..] == [];
  }

  lemma {:induction false} UnstartedGap(t: Text)
    ensures Dashed(t, false, true) == Dashed(t, false, false)
  {
    if t != [] && (t[0] == BACKTICK || !IsSlugUnit(t[0])) { UnstartedGap(t[1..]); }
  }

  lemma {:induction false} BlanksAreSilent(t: Text, started: bool, gap: bool)
    requires AllBlank(t, IsSpace)
    ensures Dashed(Lower(t), started, gap) == [] && DashState(Lower(t), started, gap).0 == started
  {
    if t != [] {
      assert IsSpace(t[0]);
      BlanksAreSilent(t[1..], started, true);
    }
  }

  lemma DashedThree(a: Text, b: Text, c: Text)
    ensures var s := DashState(a, false, false); var r := DashState(b, s.0, s.1);
      Dashed(a + b + c, false, false) == Dashed(a, false, false) + Dashed(b, s.0, s.1) + Dashed(c, r.0, r.1)
  {
    DashedConcat(a, b + c, false, false);
    assert a + (b + c) == a + b + c;
    var s := DashState(a, false, false);
    DashedConcat(b, c, s.0, s.1);
  }

  /** Trimming makes no difference to a slug. */
  lemma TrimIsSilent(t: Text)
    ensures Dashed(Lower(Trim(t, IsSpace)), false, false) == Dashed(Lower(t), false, false)
  {
    var front, back := TrimCuts(t, IsSpace);
    var middle := Trim(t, IsSpace);
    hide Trim, Dashed, Lower, DashState, AllBlank;
    LowerConcat(front + middle, back);
    LowerConcat(front, middle);
    DashedThree(Lower(front), Lower(middle), Lower(back));
    BlanksAreSilent(front, false, false);
    var s := DashState(Lower(front), false, false);
    var r := DashState(Lower(middle), s.0, s.1);
    BlanksAreSilent(back, r.0, r.1);
    UnstartedGap(Lower(middle));
  }

  lemma SameSlug(t: Text, u: Text)
    requires Dashed(Lower(t), false, false) == Dashed(Lower(u), false, false)
    ensures SlugPart(t) == SlugPart(u)
  {
    TrimIsSilent(t);
    TrimIsSilent(u);
    hide Trim, Dashed, Lower;
  }

  /** The unit between two texts, as the scan sees it. */
  lemma SlugBetween(a: Text, c: Text, d: Text, b: Text)
    requires forall started, gap :: Dashed(Lower(c), started, gap) == Dashed(Lower(d), started, gap) && DashState(Lower(c), started, gap) == DashState(Lower(d), started, gap)
    ensures SlugPart(a + c + b) == SlugPart(a + d + b)
  {
    hide Dashed, Lower, DashState, SlugPart;
    LowerConcat(a + c, b);
    LowerConcat(a, c);
    LowerConcat(a + d, b);
    LowerConcat(a, d);
    DashedThree(Lower(a), Lower(c), Lower(b));
    DashedThree(Lower(a), Lower(d), Lower(b));
    SameSlug(a + c + b, a + d + b);
  }

  /** Backticks vanish from a slug. */
  lemma BackticksVanish(a: Text, b: Text)
    ensures SlugPart(a + [96] + b) == SlugPart(a + b)
  {
    LowerSingle(96);
    forall started, gap ensures Dashed([96], started, gap) == Dashed([], started, gap) && DashState([96], started, gap) == DashState([], started, gap) {
      assert [96][1..] == [];
    }
    assert Lower([]) == [];
    SlugBetween(a, [96], [], b);
    assert a + [] + b == a + b;
  }

  /** Any other unit that is no letter or digit separates the parts of a slug. */
  lemma OtherUnitsSeparate(a: Text, c: Unit, b: Text)
    requires !(97 <= c <= 122) && !(48 <= c <= 57) && !(65 <= c <= 90) && c != 96 && c != 0x212A && c != 0x130
    ensures SlugPart(a + [c] + b) == SlugPart(a + [45] + b)
  {
    LowerSingle(c);
    LowerSingle(45);
    forall started, gap ensures Dashed([c], started, gap) == Dashed([45], started, gap) && DashState([c], started, gap) == DashState([45], started, gap) {
      assert [c][1..] == [] && [45][1..] == [];
    }
    SlugBetween(a, [c], [45], b);
  }

  /** The Kelvin sign counts as a k, and the capital I with a dot as an i and a separator. */
  lemma OddCapitals(a: Text, b: Text)
    ensures SlugPart(a + [0x212A] + b) == SlugPart(a + [107] + b)
    ensures SlugPart(a + [0x130] + b) == SlugPart(a + [105, 0x307] + b)
  {
    LowerSingle(0x212A);
    LowerSingle(107);
    SlugBetween(a, [0x212A], [107], b);
    LowerSingle(0x130);
    LowerSingle(105);
    LowerSingle(0x307);
    LowerConcat([105], [0x307]);
    assert [105] + [0x307] == [105, 0x307];
    SlugBetween(a, [0x130], [105, 0x307], b);
  }
}
