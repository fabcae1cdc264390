/** Section ids: exactly when they are distinct. */
module SectionIds {
  import opened Wrappers
  import opened Lines
  import opened Utf16
  import opened MarkdownSections
  import opened SectionFences
  import opened SectionNames

  // ----- one base -----

  lemma {:induction false} DecimalDiffers(n: nat, m: nat)
    requires n != m
    ensures Decimal(n) != Decimal(m)
    decreases n
  {
    if n >= 10 && m >= 10 {
      if n / 10 != m / 10 {
        DecimalDiffers(n / 10, m / 10);
        assert Decimal(n)[..|Decimal(n)| - 1] == Decimal(n / 10) && Decimal(m)[..|Decimal(m)| - 1] == Decimal(m / 10);
      } else {
        assert Decimal(n)[|Decimal(n)| - 1] == 48 + n % 10 && Decimal(m)[|Decimal(m)| - 1] == 48 + m % 10;
      }
    } else {
      DecimalIsShort(n);
      DecimalIsShort(m);
    }
  }

  lemma {:induction false} DecimalIsShort(n: nat)
    ensures n < 10 ==> |Decimal(n)| == 1 && Decimal(n)[0] == 48 + n
    ensures n >= 10 ==> |Decimal(n)| >= 2
  {
    if n >= 10 { DecimalIsShort(n / 10); }
  }

  lemma CountedIdsDiffer(base: Text, n: nat, m: nat)
    requires n != m
    ensures UniqueSectionId(base, n) != UniqueSectionId(base, m)
  {
    DecimalDiffers(n + 1, m + 1);
    if n > 0 && m > 0 {
      var front := base + [DASH];
      assert UniqueSectionId(base, n)[|front|..] == Decimal(n + 1) && UniqueSectionId(base, m)[|front|..] == Decimal(m + 1);
    }
    hide Decimal;
  }

  lemma {:induction false} CountGrows(ms: seq<Mark>, i: nat, j: nat)
    requires i < j < |ms| && Levelled(ms)
    ensures BaseCount(ms, j, Base(PathOf(ms, i))) > BaseCount(ms, i, Base(PathOf(ms, i)))
    decreases j
  {
    hide Base, PathOf;
    if i + 1 < j { CountGrows(ms, i, j - 1); }
  }

  /** Headings with the same base get different ids; two sections share an id only across different bases. */
  lemma CollisionsNeedDifferentBases(ms: seq<Mark>, i: nat, j: nat)
    requires i < j < |ms| && Levelled(ms) && IdOf(ms, i) == IdOf(ms, j)
    ensures Base(PathOf(ms, i)) != Base(PathOf(ms, j))
  {
    hide Base, PathOf, BaseCount, UniqueSectionId;
    if Base(PathOf(ms, i)) == Base(PathOf(ms, j)) {
      CountGrows(ms, i, j);
      CountedIdsDiffer(Base(PathOf(ms, i)), BaseCount(ms, i, Base(PathOf(ms, i))), BaseCount(ms, j, Base(PathOf(ms, i))));
    }
  }

  // ----- two bases -----

  lemma {:induction false} DecimalHasNoDash(n: nat)
    ensures DASH !in Decimal(n)
  {
    if n >= 10 { DecimalHasNoDash(n / 10); }
  }

  lemma DashAt(a: Text, x: Text)
    requires DASH !in x
    ensures (a + [DASH] + x)[|a|] == DASH && forall k :: |a| < k < |a + [DASH] + x| ==> (a + [DASH] + x)[k] != DASH
  {
    var s := a + [DASH] + x;
    assert forall k :: |a| < k < |s| ==> s[k] == x[k - |a| - 1];
  }

  /** What follows the last dash, and what comes before it, are fixed by the text. */
  lemma LastDash(a: Text, b: Text, x: Text, y: Text)
    requires a + [DASH] + x == b + [DASH] + y && DASH !in x && DASH !in y
    ensures a == b && x == y
  {
    var s := a + [DASH] + x;
    DashAt(a, x);
    DashAt(b, y);
    assert |a| == |b|;
    assert s[..|a|] == a && s[|a| + 1..] == x && s[..|b|] == b && s[|b| + 1..] == y;
  }

  /** A base is another one that is used at least `k` times, followed by `-k`, for some `k` of 2 or more. */
  ghost predicate BasesClash(ms: seq<Mark>)
    requires Levelled(ms)
  {
    exists i: nat, j: nat, k: nat :: i < |ms| && j < |ms| && Clash(ms, i, j, k)
  }

  predicate Clash(ms: seq<Mark>, i: nat, j: nat, k: nat)
    requires i < |ms| && j < |ms| && Levelled(ms)
  {
    var base := Base(PathOf(ms, i));
    2 <= k <= BaseCount(ms, |ms|, base) && Base(PathOf(ms, j)) == base + [DASH] + Decimal(k)
  }

  ghost predicate IdsDistinct(ms: seq<Mark>)
    requires Levelled(ms)
  {
    forall i, j :: 0 <= i < j < |ms| ==> IdOf(ms, i) != IdOf(ms, j)
  }

  lemma CountStep(ms: seq<Mark>, i: nat, base: Text)
    requires i < |ms| && Levelled(ms)
    ensures BaseCount(ms, i + 1, base) == BaseCount(ms, i, base) + (if Base(PathOf(ms, i)) == base then 1 else 0)
  {
    hide Base, PathOf;
  }

  lemma {:induction false} CountMonotone(ms: seq<Mark>, i: nat, n: nat, base: Text)
    requires i <= n <= |ms| && Levelled(ms)
    ensures BaseCount(ms, i, base) <= BaseCount(ms, n, base)
    decreases n
  {
    hide Base, PathOf, BaseCount;
    if i < n {
      CountMonotone(ms, i, n - 1, base);
      CountStep(ms, n - 1, base);
    }
  }

  /** The heading with a base that has `c` headings with that base before it. */
  lemma {:induction false} Nth(ms: seq<Mark>, n: nat, base: Text, c: nat) returns (p: nat)
    requires n <= |ms| && Levelled(ms) && c < BaseCount(ms, n, base)
    ensures p < n && Base(PathOf(ms, p)) == base && BaseCount(ms, p, base) == c
    decreases n
  {
    hide Base, PathOf;
    p := n - 1;
    if Base(PathOf(ms, p)) != base || c < BaseCount(ms, p, base) { p := Nth(ms, n - 1, base, c); }
  }

  /** The id of a heading is its base, or its base and a number of 2 or more that its base reaches. */
  lemma IdParts(ms: seq<Mark>, i: nat) returns (k: nat)
    requires i < |ms| && Levelled(ms)
    ensures 1 <= k == BaseCount(ms, i, Base(PathOf(ms, i))) + 1 <= BaseCount(ms, |ms|, Base(PathOf(ms, i)))
    ensures IdOf(ms, i) == if k == 1 then Base(PathOf(ms, i)) else Base(PathOf(ms, i)) + [DASH] + Decimal(k)
  {
    hide Base, PathOf, Decimal, BaseCount;
    var base := Base(PathOf(ms, i));
    CountStep(ms, i, base);
    CountMonotone(ms, i + 1, |ms|, base);
    k := BaseCount(ms, i, base) + 1;
  }

  /** Two headings that share an id make a clash. */
  lemma SharedIdClashes(ms: seq<Mark>, i: nat, j: nat)
    requires i < j < |ms| && Levelled(ms) && IdOf(ms, i) == IdOf(ms, j)
    ensures BasesClash(ms)
  {
    hide Base, PathOf, Decimal, IdOf, BaseCount;
    CollisionsNeedDifferentBases(ms, i, j);
    var k := IdParts(ms, i);
    var l := IdParts(ms, j);
    if k > 1 && l > 1 {
      DecimalHasNoDash(k);
      DecimalHasNoDash(l);
      LastDash(Base(PathOf(ms, i)), Base(PathOf(ms, j)), Decimal(k), Decimal(l));
    } else if k > 1 {
      assert Clash(ms, i, j, k);
    } else if l > 1 {
      assert Clash(ms, j, i, l);
    }
  }

  /** A clash makes two headings share an id: the `k`-th with the one base, and the first with the other. */
  lemma ClashShares(ms: seq<Mark>, base: Text, j: nat, k: nat) returns (p: nat, q: nat)
    requires j < |ms| && Levelled(ms) && 2 <= k <= BaseCount(ms, |ms|, base) && Base(PathOf(ms, j)) == base + [DASH] + Decimal(k)
    ensures p < |ms| && q < |ms| && p != q && IdOf(ms, p) == IdOf(ms, q)
  {
    hide Base, PathOf, Decimal, BaseCount, IdOf, Levelled;
    var other := Base(PathOf(ms, j));
    CountStep(ms, j, other);
    CountMonotone(ms, j + 1, |ms|, other);
    p := Nth(ms, |ms|, other, 0);
    q := Nth(ms, |ms|, base, k - 1);
    var a := IdParts(ms, p);
    var b := IdParts(ms, q);
    assert |other| > |base|;
  }

  /**
   The ids of all headings are distinct if and only if no base is another base, used at least `k`
   times, followed by `-k` with `k` at least 2.
   */
  lemma IdsDistinctIff(ms: seq<Mark>)
    requires Levelled(ms)
    ensures IdsDistinct(ms) <==> !BasesClash(ms)
  {
    hide IdOf, BaseCount, Base, PathOf, Decimal, Levelled;
    if !IdsDistinct(ms) {
      var i, j :| 0 <= i < j < |ms| && IdOf(ms, i) == IdOf(ms, j);
      SharedIdClashes(ms, i, j);
    }
    if BasesClash(ms) {
      var i: nat, j: nat, k: nat :| i < |ms| && j < |ms| && Clash(ms, i, j, k);
      var p, q := ClashShares(ms, Base(PathOf(ms, i)), j, k);
      assert if p < q then !IdsDistinct(ms) else q < p && !IdsDistinct(ms);
    }
  }

  // ----- the sections of a document -----

  const UNDERSCORE: Unit := 95

  lemma {:induction false} JoinWithout(parts: seq<Text>, c: Unit)
    requires c != SLASH && forall i :: 0 <= i < |parts| ==> c !in parts[i]
    ensures c !in Join(parts, SLASH)
  {
    if |parts| > 1 { JoinWithout(parts[1..], c); }
  }

  lemma SlugWithout(t: Text)
    ensures UNDERSCORE !in SlugPart(t)
  {
    hide SlugPart;
    SlugIsClean(t);
    assert forall i :: 0 <= i < |SlugPart(t)| ==> IsSlugUnit(SlugPart(t)[i]) || SlugPart(t)[i] == DASH;
  }

  lemma {:induction false} DecimalWithout(n: nat)
    ensures UNDERSCORE !in Decimal(n)
  {
    if n >= 10 { DecimalWithout(n / 10); }
  }

  lemma IdWithout(ms: seq<Mark>, i: nat)
    requires i < |ms| && Levelled(ms)
    ensures UNDERSCORE !in IdOf(ms, i)
  {
    hide SlugPart, PathOf, Decimal, BaseCount, Join, Levelled;
    var path := PathOf(ms, i);
    forall k | 0 <= k < |PathSlugs(path)| ensures UNDERSCORE !in PathSlugs(path)[k] {
      if path[k].Some? { SlugWithout(path[k].value); }
    }
    JoinWithout(PathSlugs(path), UNDERSCORE);
    DecimalWithout(BaseCount(ms, i, Base(path)) + 1);
  }

  ghost predicate SectionIdsDistinct(sections: seq<Section>) {
    forall i, j :: 0 <= i < j < |sections| ==> sections[i].sectionId != sections[j].sectionId
  }

  lemma SectionsDistinct(lines: seq<Text>, ms: seq<Mark>, hash: Text -> string)
    requires Ordered(ms, |lines|)
    ensures SectionIdsDistinct(HeadingSections(lines, ms, hash)) <==> IdsDistinct(ms)
  {
    hide IdOf, ParentOf, PathOf, EndOf;
    var sections := HeadingSections(lines, ms, hash);
    forall i | 0 <= i < |ms| ensures sections[i].sectionId == IdOf(ms, i) {}
    if IdsDistinct(ms) {
      assert forall i, j :: 0 <= i < j < |ms| ==> IdOf(ms, i) != IdOf(ms, j);
    }
  }

  lemma PreambleDiffers(lines: seq<Text>, ms: seq<Mark>, hash: Text -> string, rest: seq<Section>)
    requires Ordered(ms, |lines|) && rest == HeadingSections(lines, ms, hash)
    ensures SectionIdsDistinct([Preamble(lines, ms, hash)] + rest) <==> SectionIdsDistinct(rest)
  {
    hide IdOf, ParentOf, PathOf, EndOf;
    var first := Preamble(lines, ms, hash);
    var all := [first] + rest;
    assert first.sectionId[0] == UNDERSCORE;
    forall j | 0 <= j < |rest| ensures rest[j].sectionId != first.sectionId {
      IdWithout(ms, j);
      assert rest[j].sectionId == IdOf(ms, j);
    }
    if SectionIdsDistinct(all) {
      forall i, j | 0 <= i < j < |rest| ensures rest[i].sectionId != rest[j].sectionId {
        assert rest[i] == all[i + 1] && rest[j] == all[j + 1];
      }
    }
  }

  /** So the sections of a document have distinct ids if and only if the bases of its headings do not clash. */
  lemma DocumentIdsDistinctIff(markdown: Text, hash: Text -> string)
    ensures SectionIdsDistinct(ParseMarkdownSections(markdown, hash)) <==> !BasesClash(DocMarks(Split(markdown, NEWLINE)))
  {
    var lines := Split(markdown, NEWLINE);
    var ms := DocMarks(lines);
    hide DocMarks, HeadingSections, Preamble, SectionIdsDistinct, IdsDistinct, BasesClash, Split;
    IdsDistinctIff(ms);
    SectionsDistinct(lines, ms, hash);
    PreambleDiffers(lines, ms, hash, HeadingSections(lines, ms, hash));
    assert [] + HeadingSections(lines, ms, hash) == HeadingSections(lines, ms, hash);
  }

  /** The headings before position `i` with this base. */
  function WithBase(ms: seq<Mark>, i: nat, base: Text): set<nat>
    requires i <= |ms| && Levelled(ms)
  {
    set j: nat | j < i && Base(PathOf(ms, j)) == base
  }

  /** A heading's id is its base, with the number of headings so far that share the base unless it is the first. */
  lemma IdIsNumbered(ms: seq<Mark>, i: nat)
    requires i < |ms| && Levelled(ms)
    ensures var base := Base(PathOf(ms, i)); var earlier := WithBase(ms, i, base);
      && (earlier == {} ==> IdOf(ms, i) == base)
      && (|earlier| == 1 ==> IdOf(ms, i) == base + [45, 50])
      && (earlier != {} ==> IdOf(ms, i) == base + [45] + Decimal(|earlier| + 1))
  {
    hide Base, PathOf, BaseCount, Decimal, WithBase;
    CountIsSize(ms, i, Base(PathOf(ms, i)));
    SecondIs(Base(PathOf(ms, i)));
  }

  lemma SecondIs(base: Text)
    ensures base + [45] + Decimal(2) == base + [45, 50]
  {
    assert Decimal(2) == [50];
  }

  /** A base is the slugs of the heading path with slashes between them, and can be split back into them; a skipped level is an empty part. */
  lemma BaseSplits(path: Stack)
    requires path != []
    ensures var parts := Split(Base(path), 47);
      |parts| == |path| && forall i :: 0 <= i < |path| ==> parts[i] == if path[i].Some? then SlugPart(path[i].value) else []
  {
    var slugs := PathSlugs(path);
    forall p | p in slugs ensures SLASH !in p {
      var i :| 0 <= i < |slugs| && slugs[i] == p;
      if path[i].Some? { SlugHasNoSlash(path[i].value); }
    }
    hide SlugPart, Split, Join;
    SplitJoin(slugs, SLASH);
  }

  lemma SlugHasNoSlash(t: Text)
    ensures 47 !in SlugPart(t)
  {
    SlugIsClean(t);
    hide SlugPart;
  }

  lemma WithBaseStep(ms: seq<Mark>, i: nat, base: Text)
    requires i < |ms| && Levelled(ms)
    ensures WithBase(ms, i + 1, base) == if Base(PathOf(ms, i)) == base then WithBase(ms, i, base) + {i} else WithBase(ms, i, base)
    ensures i !in WithBase(ms, i, base)
  {
    hide Base, PathOf;
  }

  lemma {:induction false} CountIsSize(ms: seq<Mark>, i: nat, base: Text)
    requires i <= |ms| && Levelled(ms)
    ensures BaseCount(ms, i, base) == |WithBase(ms, i, base)|
  {
    hide Base, PathOf, WithBase;
    if i == 0 {
      NoneWithBase(ms, base);
    } else {
      CountIsSize(ms, i - 1, base);
      WithBaseStep(ms, i - 1, base);
    }
  }

  lemma NoneWithBase(ms: seq<Mark>, base: Text)
    requires Levelled(ms)
    ensures WithBase(ms, 0, base) == {}
  {}

  // ----- a document whose ids clash -----

  const A: Text := [97]
  const A2: Text := [97, 45, 50]
  const LINE_A: Text := [HASH, SPACE, 97]
  const LINE_A2: Text := [HASH, SPACE, 97, 45, 50]

  lemma LineReads(text: Text, line: Text)
    requires (text == A && line == LINE_A) || (text == A2 && line == LINE_A2)
    ensures HeadingOf(line) == Some(HeadingLine(1, text)) && FenceOf(line).None?
  {
    NoClosing(text);
    assert line == HeadingText(1, text) by { assert Hashes(1) == [HASH]; }
    assert FenceOf(line).None? by { assert RunLength(line, 0, SPACE) == 0; }
    hide HeadingOf, HasClosing, FenceOf, HeadingText;
    HeadingReads(1, text);
  }

  lemma NoClosing(text: Text)
    requires text == A || text == A2
    ensures !HasClosing(text)
  {
    forall i | 1 <= i < |text| ensures !Closes(text, i) {
      ClosesIsClosing(text, i);
      assert BlankRun(text, i) == 0;
    }
  }

  lemma FlatPath(ms: seq<Mark>, i: nat)
    requires i < |ms| && Levelled(ms) && ms[i].level == 1
    ensures Base(PathOf(ms, i)) == SlugPart(ms[i].text)
  {
    hide SlugPart;
    assert ms[..i + 1][..i] == ms[..i];
    assert Resize(StackAfter(ms[..i]), 0) == [];
    assert PathOf(ms, i) == [Some(ms[i].text)];
    assert PathSlugs(PathOf(ms, i)) == [SlugPart(ms[i].text)];
  }

  const MARKS := [Mark(1, 1, A), Mark(2, 1, A), Mark(3, 1, A2)]

  lemma LineMark(text: Text, line: Text, at: nat)
    requires (text == A && line == LINE_A) || (text == A2 && line == LINE_A2)
    ensures HeadMark(line, at, None) == [Mark(at, 1, text)] && NextFence(None, line) == None
  {
    LineReads(text, line);
    hide HeadingOf, FenceOf;
  }

  lemma CollidingMarks()
    ensures Marks([LINE_A, LINE_A, LINE_A2], 1, None) == MARKS
  {
    LineMark(A, LINE_A, 1);
    LineMark(A, LINE_A, 2);
    LineMark(A2, LINE_A2, 3);
    hide HeadMark, NextFence, Marks, FenceAfter;
    MarksUnfold([LINE_A, LINE_A, LINE_A2], 1, None);
    MarksUnfold([LINE_A, LINE_A2], 2, None);
    MarksUnfold([LINE_A2], 3, None);
    MarksNone(4);
    assert [LINE_A, LINE_A, LINE_A2][1..] == [LINE_A, LINE_A2] && [LINE_A, LINE_A2][1..] == [LINE_A2] && [LINE_A2][1..] == [];
  }

  lemma MarksNone(first: nat)
    ensures Marks([], first, None) == []
  {}

  lemma SlugsOfExample()
    ensures SlugPart(A) == A && SlugPart(A2) == A2
  {
    hide SlugPart;
    SlugFixed(A);
    SlugFixed(A2);
  }

  lemma CollidingBases()
    ensures Levelled(MARKS) && Base(PathOf(MARKS, 0)) == Base(PathOf(MARKS, 1)) == A && Base(PathOf(MARKS, 2)) == A2
  {
    hide SlugPart, Base, PathOf;
    SlugsOfExample();
    FlatPath(MARKS, 0);
    FlatPath(MARKS, 1);
    FlatPath(MARKS, 2);
  }

  lemma CollidingClash()
    ensures Levelled(MARKS) && Clash(MARKS, 0, 2, 2)
  {
    CollidingBases();
    hide Base, PathOf, BaseCount;
    CountStep(MARKS, 0, A);
    CountStep(MARKS, 1, A);
    CountStep(MARKS, 2, A);
    assert Decimal(2) == [50];
    assert A + [DASH] + [50] == A2;
  }

  /** The document with the headings `a`, `a` and `a-2`: its second and third section share an id. */
  lemma IdsCanCollide(markdown: Text, hash: Text -> string)
    requires markdown == Units("# a\n# a\n# a-2")
    ensures !SectionIdsDistinct(ParseMarkdownSections(markdown, hash))
  {
    var lines := [LINE_A, LINE_A, LINE_A2];
    CollidingMarks();
    CollidingClash();
    assert DocMarks(lines) == MARKS;
    hide Marks, DocMarks, Clash, SectionIdsDistinct, ParseMarkdownSections;
    CollidingLines(markdown);
    DocumentIdsDistinctIff(markdown, hash);
    assert BasesClash(MARKS);
  }

  lemma CollidingLines(markdown: Text)
    requires markdown == Units("# a\n# a\n# a-2")
    ensures Split(markdown, NEWLINE) == [LINE_A, LINE_A, LINE_A2]
  {
    var rest, last: Text := LINE_A + [NEWLINE] + LINE_A2, LINE_A2;
    assert markdown == LINE_A + [NEWLINE] + rest;
    hide Split;
    SplitPrefix(LINE_A, NEWLINE, rest);
    SplitPrefix(LINE_A, NEWLINE, last);
    SplitPrefix(LINE_A2, NEWLINE, []);
    assert [LINE_A] + ([LINE_A] + [LINE_A2]) == [LINE_A, LINE_A, LINE_A2];
  }
}
