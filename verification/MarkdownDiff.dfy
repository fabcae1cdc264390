/** The line diff: a table of common subsequence lengths and a greedy walk through it. */
module MarkdownDiff {
  import opened Lines
  import opened Utf16

  const DIFF_LINE_LIMIT: nat := 220
  const MAX_LCS_CELLS: nat := 250_000
  const SPACE: Unit := 32
  const PLUS: Unit := 43
  const MINUS: Unit := 45

  // ----- common subsequences -----

  function Max(x: nat, y: nat): nat {
    if x >= y then x else y
  }

  /** What the table holds at row `i` and column `j`. */
  function Lcs(a: seq<Text>, i: nat, b: seq<Text>, j: nat): nat
    requires i <= |a| && j <= |b|
    decreases |a| - i + |b| - j
  {
    if i == |a| || j == |b| then 0
    else if a[i] == b[j] then Lcs(a, i + 1, b, j + 1) + 1
    else Max(Lcs(a, i + 1, b, j), Lcs(a, i, b, j + 1))
  }

  predicate Subsequence(c: seq<Text>, s: seq<Text>) {
    c == [] || (s != [] && if c[0] == s[0] then Subsequence(c[1..], s[1..]) else Subsequence(c, s[1..]))
  }

  /** No common subsequence is longer than the table says. */
  lemma {:induction false} LcsBounds(c: seq<Text>, a: seq<Text>, i: nat, b: seq<Text>, j: nat)
    requires i <= |a| && j <= |b| && Subsequence(c, a[i..]) && Subsequence(c, b[j..])
    ensures |c| <= Lcs(a, i, b, j)
    decreases |a| - i + |b| - j
  {
    if c != [] {
      assert a[i..][1..] == a[i + 1..] && b[j..][1..] == b[j + 1..];
      if a[i] == b[j] {
        LcsBounds(if c[0] == a[i] then c[1..] else c, a, i + 1, b, j + 1);
      } else if c[0] != a[i] {
        LcsBounds(c, a, i + 1, b, j);
      } else {
        LcsBounds(c, a, i, b, j + 1);
      }
    }
  }

  lemma {:induction false} LcsSteps(a: seq<Text>, i: nat, b: seq<Text>, j: nat)
    requires i <= |a| && j <= |b|
    ensures i < |a| ==> Lcs(a, i + 1, b, j) <= Lcs(a, i, b, j) <= Lcs(a, i + 1, b, j) + 1
    ensures j < |b| ==> Lcs(a, i, b, j + 1) <= Lcs(a, i, b, j) <= Lcs(a, i, b, j + 1) + 1
    decreases |a| - i + |b| - j
  {
    if i < |a| { LcsSteps(a, i + 1, b, j); }
    if j < |b| { LcsSteps(a, i, b, j + 1); }
  }

  // ----- edit scripts -----

  datatype Edit = Keep(line: Text) | Add(line: Text) | Remove(line: Text)

  function Before(s: seq<Edit>): seq<Text> {
    if s == [] then [] else (if s[0].Add? then [] else [s[0].line]) + Before(s[1..])
  }

  function After(s: seq<Edit>): seq<Text> {
    if s == [] then [] else (if s[0].Remove? then [] else [s[0].line]) + After(s[1..])
  }

  function Kept(s: seq<Edit>): seq<Text> {
    if s == [] then [] else (if s[0].Keep? then [s[0].line] else []) + Kept(s[1..])
  }

  function Added(s: seq<Edit>): nat {
    if s == [] then 0 else (if s[0].Add? then 1 else 0) + Added(s[1..])
  }

  function Removed(s: seq<Edit>): nat {
    if s == [] then 0 else (if s[0].Remove? then 1 else 0) + Removed(s[1..])
  }

  lemma {:induction false} ScriptLengths(s: seq<Edit>)
    ensures |Before(s)| == |Kept(s)| + Removed(s) && |After(s)| == |Kept(s)| + Added(s)
    ensures |s| == |Kept(s)| + Removed(s) + Added(s)
  {
    if s != [] { ScriptLengths(s[1..]); }
  }

  lemma {:induction false} KeptIsCommon(s: seq<Edit>)
    ensures Subsequence(Kept(s), Before(s)) && Subsequence(Kept(s), After(s))
  {
    if s != [] {
      KeptIsCommon(s[1..]);
      var e, c := s[0], Kept(s[1..]);
      match e {
        case Keep(line) =>
          assert ([line] + c)[1..] == c;
          assert ([line] + Before(s[1..]))[1..] == Before(s[1..]) && ([line] + After(s[1..]))[1..] == After(s[1..]);
        case Add(line) =>
          SubsequenceLater(c, line, After(s[1..]));
          assert [] + c == c && [] + Before(s[1..]) == Before(s[1..]);
        case Remove(line) =>
          SubsequenceLater(c, line, Before(s[1..]));
          assert [] + c == c && [] + After(s[1..]) == After(s[1..]);
      }
    }
  }

  lemma {:induction false} SubsequenceRest(c: seq<Text>, s: seq<Text>)
    requires c != [] && Subsequence(c, s)
    ensures Subsequence(c[1..], s)
  {
    if c[0] == s[0] {
      if |c| > 1 {
        if c[1] == s[0] { SubsequenceRest(c[1..], s[1..]); }
      }
    } else {
      SubsequenceRest(c, s[1..]);
      if |c| > 1 && c[1] == s[0] { SubsequenceRest(c[1..], s[1..]); }
    }
  }

  lemma SubsequenceLater(c: seq<Text>, line: Text, s: seq<Text>)
    requires Subsequence(c, s)
    ensures Subsequence(c, [line] + s)
  {
    assert ([line] + s)[1..] == s;
    if c != [] && c[0] == line { SubsequenceRest(c, s); }
  }

  /** The greedy walk: keep equal lines, else add while that loses nothing, else remove. */
  function Walk(a: seq<Text>, i: nat, b: seq<Text>, j: nat): seq<Edit>
    requires i <= |a| && j <= |b|
    decreases |a| - i + |b| - j
  {
    if i == |a| && j == |b| then []
    else if i < |a| && j < |b| && a[i] == b[j] then [Keep(a[i])] + Walk(a, i + 1, b, j + 1)
    else if j < |b| && (i == |a| || Lcs(a, i, b, j + 1) >= Lcs(a, i + 1, b, j)) then [Add(b[j])] + Walk(a, i, b, j + 1)
    else [Remove(a[i])] + Walk(a, i + 1, b, j)
  }

  function Script(before: Text, after: Text): seq<Edit> {
    Walk(Split(before, NEWLINE), 0, Split(after, NEWLINE), 0)
  }

  lemma ScriptCons(e: Edit, s: seq<Edit>)
    ensures Before([e] + s) == (if e.Add? then [] else [e.line]) + Before(s)
    ensures After([e] + s) == (if e.Remove? then [] else [e.line]) + After(s)
    ensures Kept([e] + s) == (if e.Keep? then [e.line] else []) + Kept(s)
  {
    assert ([e] + s)[1..] == s;
  }

  predicate Replays(s: seq<Edit>, a: seq<Text>, i: nat, b: seq<Text>, j: nat)
    requires i <= |a| && j <= |b|
  {
    Before(s) == a[i..] && After(s) == b[j..] && |Kept(s)| == Lcs(a, i, b, j)
  }

  lemma KeepReplays(s: seq<Edit>, a: seq<Text>, i: nat, b: seq<Text>, j: nat)
    requires i < |a| && j < |b| && a[i] == b[j] && Replays(s, a, i + 1, b, j + 1)
    ensures Replays([Keep(a[i])] + s, a, i, b, j)
  {
    hide Before, After, Kept;
    ScriptCons(Keep(a[i]), s);
  }

  lemma AddReplays(s: seq<Edit>, a: seq<Text>, i: nat, b: seq<Text>, j: nat)
    requires i <= |a| && j < |b| && Replays(s, a, i, b, j + 1)
    requires i == |a| || (a[i] != b[j] && Lcs(a, i, b, j + 1) >= Lcs(a, i + 1, b, j))
    ensures Replays([Add(b[j])] + s, a, i, b, j)
  {
    ScriptCons(Add(b[j]), s);
    assert Lcs(a, i, b, j) == Lcs(a, i, b, j + 1);
    hide Before, After, Kept, Lcs;
    assert [b[j]] + b[j + 1..] == b[j..] && [] + a[i..] == a[i..];
  }

  lemma RemoveReplays(s: seq<Edit>, a: seq<Text>, i: nat, b: seq<Text>, j: nat)
    requires i < |a| && j <= |b| && Replays(s, a, i + 1, b, j)
    requires j == |b| || (a[i] != b[j] && Lcs(a, i, b, j + 1) < Lcs(a, i + 1, b, j))
    ensures Replays([Remove(a[i])] + s, a, i, b, j)
  {
    hide Before, After, Kept;
    ScriptCons(Remove(a[i]), s);
  }

  /** The walk replays one document into the other and keeps as many lines as the table says. */
  lemma {:induction false} WalkReplays(a: seq<Text>, i: nat, b: seq<Text>, j: nat)
    requires i <= |a| && j <= |b|
    ensures Replays(Walk(a, i, b, j), a, i, b, j)
    decreases |a| - i + |b| - j
  {
    if i == |a| && j == |b| {
      EmptyScript();
    } else {
      hide Replays, Lcs;
      if i < |a| && j < |b| && a[i] == b[j] {
        WalkReplays(a, i + 1, b, j + 1);
        KeepReplays(Walk(a, i + 1, b, j + 1), a, i, b, j);
      } else if j < |b| && (i == |a| || Lcs(a, i, b, j + 1) >= Lcs(a, i + 1, b, j)) {
        WalkReplays(a, i, b, j + 1);
        AddReplays(Walk(a, i, b, j + 1), a, i, b, j);
      } else {
        WalkReplays(a, i + 1, b, j);
        RemoveReplays(Walk(a, i + 1, b, j), a, i, b, j);
      }
    }
  }

  lemma EmptyScript()
    ensures Before([]) == [] && After([]) == [] && Kept([]) == []
  {}

  /** The script turns `before` into `after`, its kept lines are a longest common subsequence, and the counts follow. */
  lemma ScriptReplays(before: Text, after: Text)
    ensures var a, b, s := Split(before, NEWLINE), Split(after, NEWLINE), Script(before, after);
      && Join(Before(s), NEWLINE) == before && Join(After(s), NEWLINE) == after
      && Added(s) + Removed(s) == |a| + |b| - 2 * Lcs(a, 0, b, 0)
      && Added(s) - Removed(s) == |b| - |a|
  {
    hide Walk, Lcs, Before, After, Kept, Added, Removed, Join, Split;
    var a, b, s := Split(before, NEWLINE), Split(after, NEWLINE), Script(before, after);
    WalkReplays(a, 0, b, 0);
    assert a[0..] == a && b[0..] == b;
    ScriptLengths(s);
    JoinSplit(before, NEWLINE);
    JoinSplit(after, NEWLINE);
  }

  /** No script between the same documents keeps more lines, or adds and removes fewer. */
  lemma ScriptIsShortest(before: Text, after: Text, other: seq<Edit>)
    requires Before(other) == Split(before, NEWLINE) && After(other) == Split(after, NEWLINE)
    ensures var s := Script(before, after);
      && |Kept(other)| <= |Kept(s)| && Added(s) <= Added(other) && Removed(s) <= Removed(other) && |s| <= |other|
  {
    hide Walk, Lcs, Before, After, Kept, Added, Removed, Split, Subsequence;
    var a, b, s := Split(before, NEWLINE), Split(after, NEWLINE), Script(before, after);
    WalkReplays(a, 0, b, 0);
    assert a[0..] == a && b[0..] == b;
    ScriptLengths(s);
    ScriptLengths(other);
    KeptIsCommon(other);
    LcsBounds(Kept(other), a, 0, b, 0);
  }

  /** The kept lines are a longest common subsequence of the two documents. */
  lemma KeptIsLongest(before: Text, after: Text, c: seq<Text>)
    ensures var a, b, kept := Split(before, NEWLINE), Split(after, NEWLINE), Kept(Script(before, after));
      && Subsequence(kept, a) && Subsequence(kept, b)
      && (Subsequence(c, a) && Subsequence(c, b) ==> |c| <= |kept|)
  {
    hide Walk, Lcs, Before, After, Kept, Split, Subsequence;
    var a, b := Split(before, NEWLINE), Split(after, NEWLINE);
    WalkReplays(a, 0, b, 0);
    assert a[0..] == a && b[0..] == b;
    KeptIsCommon(Script(before, after));
    if Subsequence(c, a) && Subsequence(c, b) { LcsBounds(c, a, 0, b, 0); }
  }

  lemma {:induction false} OnlyKeptLines(s: seq<Edit>)
    requires Added(s) == 0 && Removed(s) == 0
    ensures Before(s) == After(s)
  {
    if s != [] { OnlyKeptLines(s[1..]); }
  }

  /** The diff of two documents is empty of changes exactly when they are the same document. */
  lemma NoChangesMeansEqual(before: Text, after: Text)
    ensures var s := Script(before, after); (Added(s) == 0 && Removed(s) == 0) <==> before == after
  {
    hide Walk, Lcs, Before, After, Kept, Added, Removed, Join, Split, Subsequence;
    var a, s := Split(before, NEWLINE), Script(before, after);
    ScriptReplays(before, after);
    if Added(s) == 0 && Removed(s) == 0 {
      OnlyKeptLines(s);
    } else if before == after {
      WholeIsCommon(a);
      LcsBounds(a, a, 0, a, 0);
    }
  }

  lemma {:induction false} WholeIsCommon(a: seq<Text>)
    ensures Subsequence(a, a) && a[0..] == a
  {
    if a != [] { WholeIsCommon(a[1..]); }
  }

  // ----- the unified text -----

  function Row(e: Edit): Text {
    match e
    case Keep(line) => [SPACE] + line
    case Add(line) => [PLUS] + line
    case Remove(line) => [MINUS] + line
  }

  function Rows(s: seq<Edit>): (r: seq<Text>)
    ensures |r| == |s|
  {
    if s == [] then [] else [Row(s[0])] + Rows(s[1..])
  }

  /** Reading a unified diff back: the first unit of a row says what it is. */
  function ReadRow(row: Text): Edit
    requires row != []
  {
    if row[0] == PLUS then Add(row[1..]) else if row[0] == MINUS then Remove(row[1..]) else Keep(row[1..])
  }

  predicate AllNonEmpty(rows: seq<Text>) {
    forall i :: 0 <= i < |rows| ==> rows[i] != []
  }

  function ReadRows(rows: seq<Text>): seq<Edit>
    requires AllNonEmpty(rows)
  {
    if rows == [] then [] else [ReadRow(rows[0])] + ReadRows(rows[1..])
  }

  lemma {:induction false} RowsAreRead(s: seq<Edit>)
    ensures AllNonEmpty(Rows(s)) && ReadRows(Rows(s)) == s
  {
    if s != [] {
      RowsAreRead(s[1..]);
      assert Rows(s)[1..] == Rows(s[1..]);
      assert ReadRow(Row(s[0])) == s[0];
    }
  }

  lemma {:induction false} RowsHaveNoBreak(s: seq<Edit>)
    requires Parts(Before(s), NEWLINE) && Parts(After(s), NEWLINE)
    ensures Parts(Rows(s), NEWLINE)
  {
    if s != [] {
      assert s[0].line in Before(s) || s[0].line in After(s);
      forall p | p in Before(s[1..]) ensures NEWLINE !in p { assert p in Before(s); }
      forall p | p in After(s[1..]) ensures NEWLINE !in p { assert p in After(s); }
      RowsHaveNoBreak(s[1..]);
    }
  }

  lemma ScriptParts(before: Text, after: Text)
    ensures var s := Script(before, after); s != [] && Parts(Before(s), NEWLINE) && Parts(After(s), NEWLINE)
  {
    hide Walk, Lcs, Before, After, Kept, Split, Parts;
    var a, b := Split(before, NEWLINE), Split(after, NEWLINE);
    WalkReplays(a, 0, b, 0);
    assert a[0..] == a && b[0..] == b;
    SplitParts(before, NEWLINE);
    SplitParts(after, NEWLINE);
    EmptyScript();
  }

  datatype MarkdownDiff = MarkdownDiff(unified: Text, truncated: bool, addedLines: nat, removedLines: nat)

  function TooManyCells(before: Text, after: Text): bool {
    (|Split(before, NEWLINE)| + 1) * (|Split(after, NEWLINE)| + 1) > MAX_LCS_CELLS
  }

  function Take(rows: seq<Text>, n: nat): seq<Text> {
    if |rows| <= n then rows else rows[..n]
  }

  function Prefixed(lines: seq<Text>, mark: Unit): (r: seq<Text>)
    ensures |r| == |lines| && forall i :: 0 <= i < |r| ==> r[i] == [mark] + lines[i]
  {
    seq(|lines|, i requires 0 <= i < |lines| => [mark] + lines[i])
  }

  /** Too large for the table: removed lines first, then added ones, cut at the limit. */
  function PreviewDiff(before: Text, after: Text): MarkdownDiff {
    var a, b := Split(before, NEWLINE), Split(after, NEWLINE);
    var rows := Prefixed(Take(a, DIFF_LINE_LIMIT), MINUS) + Prefixed(Take(b, DIFF_LINE_LIMIT), PLUS);
    MarkdownDiff(Join(Take(rows, DIFF_LINE_LIMIT), NEWLINE), true, |b|, |a|)
  }

  function ScriptDiff(s: seq<Edit>): MarkdownDiff {
    MarkdownDiff(Join(Take(Rows(s), DIFF_LINE_LIMIT), NEWLINE), |s| > DIFF_LINE_LIMIT, Added(s), Removed(s))
  }

  function DiffOf(before: Text, after: Text): MarkdownDiff {
    if TooManyCells(before, after) then PreviewDiff(before, after) else ScriptDiff(Script(before, after))
  }

  /** A diff that is not truncated contains both documents: they can be read back from it. */
  lemma DiffContainsBoth(before: Text, after: Text)
    requires !DiffOf(before, after).truncated
    ensures var rows := Split(DiffOf(before, after).unified, NEWLINE);
      && AllNonEmpty(rows) && Join(Before(ReadRows(rows)), NEWLINE) == before && Join(After(ReadRows(rows)), NEWLINE) == after
  {
    hide Walk, Lcs, Before, After, Kept, Added, Removed, Join, Split, Parts, Script, Rows, ReadRows, AllNonEmpty;
    var s := Script(before, after);
    ScriptReplays(before, after);
    ScriptParts(before, after);
    RowsHaveNoBreak(s);
    SplitJoin(Rows(s), NEWLINE);
    RowsAreRead(s);
  }

  /** The rows of a preview: removed lines marked with a dash, then added ones marked with a plus, at most 220 in all. */
  predicate IsPreview(rows: seq<Text>, a: seq<Text>, b: seq<Text>) {
    && |rows| == (if |a| + |b| < 220 then |a| + |b| else 220)
    && forall i :: 0 <= i < |rows| ==> rows[i] == if i < |a| then [45] + a[i] else [43] + b[i - |a|]
  }

  lemma PreviewRows(before: Text, after: Text)
    ensures var a, b := Split(before, NEWLINE), Split(after, NEWLINE); var d := PreviewDiff(before, after);
      IsPreview(Split(d.unified, NEWLINE), a, b) && d == MarkdownDiff(d.unified, true, |b|, |a|)
  {
    var a, b := Split(before, NEWLINE), Split(after, NEWLINE);
    SplitParts(before, NEWLINE);
    SplitParts(after, NEWLINE);
    hide Split, Join;
    var rows := Take(Prefixed(Take(a, DIFF_LINE_LIMIT), MINUS) + Prefixed(Take(b, DIFF_LINE_LIMIT), PLUS), DIFF_LINE_LIMIT);
    assert rows != [] && Parts(rows, NEWLINE) by {
      forall i | 0 <= i < |rows| ensures NEWLINE !in rows[i] {
        assert rows[i] == if i < |a| then [MINUS] + a[i] else [PLUS] + b[i - |a|];
        assert if i < |a| then a[i] in a else b[i - |a|] in b;
      }
    }
    SplitJoin(rows, NEWLINE);
  }

  /**
   What a diff holds: for at most 250000 table cells the first 220 rows of the shortest script, and beyond
   that a preview; it says whether rows are missing, and counts all added and removed lines.
   */
  lemma DiffHolds(before: Text, after: Text)
    ensures var a, b, s, d := Split(before, NEWLINE), Split(after, NEWLINE), Script(before, after), DiffOf(before, after);
      if (|a| + 1) * (|b| + 1) <= 250_000 then
        && Split(d.unified, NEWLINE) == Rows(s)[..if |s| < 220 then |s| else 220]
        && (d.truncated <==> |s| > 220) && d.addedLines == Added(s) && d.removedLines == Removed(s)
      else
        IsPreview(Split(d.unified, NEWLINE), a, b) && d.truncated && d.addedLines == |b| && d.removedLines == |a|
  {
    PreviewRows(before, after);
    ScriptParts(before, after);
    var s := Script(before, after);
    RowsHaveNoBreak(s);
    hide Split, Join, Script, Rows, PreviewDiff, Added, Removed, Before, After, IsPreview;
    var rows := Take(Rows(s), DIFF_LINE_LIMIT);
    forall p | p in rows ensures NEWLINE !in p { assert p in Rows(s); }
    SplitJoin(rows, NEWLINE);
  }

  // ----- the loops -----

  lemma LcsCell(a: seq<Text>, i: nat, b: seq<Text>, j: nat)
    requires i <= |a| && j <= |b|
    ensures i == |a| || j == |b| ==> Lcs(a, i, b, j) == 0
    ensures i < |a| && j < |b| && a[i] == b[j] ==> Lcs(a, i, b, j) == Lcs(a, i + 1, b, j + 1) + 1
    ensures i < |a| && j < |b| && a[i] != b[j] ==> Lcs(a, i, b, j) == Max(Lcs(a, i + 1, b, j), Lcs(a, i, b, j + 1))
  {}

  method FillTable(a: seq<Text>, b: seq<Text>) returns (table: array2<nat>)
    ensures fresh(table) && table.Length0 == |a| + 1 && table.Length1 == |b| + 1
    ensures forall i, j :: 0 <= i <= |a| && 0 <= j <= |b| ==> table[i, j] == Lcs(a, i, b, j)
  {
    hide Lcs, Max;
    table := new nat[|a| + 1, |b| + 1]((i, j) => 0);
    forall c: nat | c <= |b| ensures Lcs(a, |a|, b, c) == 0 { LcsCell(a, |a|, b, c); }
    for i := |a| downto 0
      invariant forall r, c :: i <= r <= |a| && 0 <= c <= |b| ==> table[r, c] == Lcs(a, r, b, c)
      invariant forall r :: 0 <= r < i ==> table[r, |b|] == 0
    {
      LcsCell(a, i, b, |b|);
      for j := |b| downto 0
        invariant forall r, c :: i < r <= |a| && 0 <= c <= |b| ==> table[r, c] == Lcs(a, r, b, c)
        invariant forall c :: j <= c <= |b| ==> table[i, c] == Lcs(a, i, b, c)
        invariant forall r :: 0 <= r < i ==> table[r, |b|] == 0
      {
        LcsCell(a, i, b, j);
        table[i, j] := if a[i] == b[j] then table[i + 1, j + 1] + 1 else Max(table[i + 1, j], table[i, j + 1]);
      }
    }
  }

  /** What is done so far, and what the rest of the walk will do. */
  predicate Progress(lines: seq<Text>, added: nat, removed: nat, rest: seq<Edit>, all: seq<Edit>) {
    lines + Rows(rest) == Rows(all) && added + Added(rest) == Added(all) && removed + Removed(rest) == Removed(all)
  }

  lemma ProgressStep(lines: seq<Text>, added: nat, removed: nat, e: Edit, rest: seq<Edit>, all: seq<Edit>)
    requires Progress(lines, added, removed, [e] + rest, all)
    ensures Progress(lines + [Row(e)], if e.Add? then added + 1 else added, if e.Remove? then removed + 1 else removed, rest, all)
  {
    hide Row;
    assert ([e] + rest)[1..] == rest;
    assert lines + ([Row(e)] + Rows(rest)) == lines + [Row(e)] + Rows(rest);
  }

  lemma WalkStep(a: seq<Text>, i: nat, b: seq<Text>, j: nat)
    requires i <= |a| && j <= |b| && (i < |a| || j < |b|)
    ensures i < |a| && j < |b| && a[i] == b[j] ==> Walk(a, i, b, j) == [Keep(a[i])] + Walk(a, i + 1, b, j + 1)
    ensures j < |b| && (i == |a| || (a[i] != b[j] && Lcs(a, i, b, j + 1) >= Lcs(a, i + 1, b, j))) ==>
      Walk(a, i, b, j) == [Add(b[j])] + Walk(a, i, b, j + 1)
    ensures i < |a| && (j == |b| || (a[i] != b[j] && Lcs(a, i, b, j + 1) < Lcs(a, i + 1, b, j))) ==>
      Walk(a, i, b, j) == [Remove(a[i])] + Walk(a, i + 1, b, j)
  {
    hide Lcs;
  }

  lemma WalkEnds(a: seq<Text>, b: seq<Text>, lines: seq<Text>, added: nat, removed: nat, all: seq<Edit>)
    ensures Progress([], 0, 0, all, all)
    ensures Progress(lines, added, removed, Walk(a, |a|, b, |b|), all) ==> lines == Rows(all) && added == Added(all) && removed == Removed(all)
  {}

  method WalkTable(a: seq<Text>, b: seq<Text>, table: array2<nat>) returns (lines: seq<Text>, addedLines: nat, removedLines: nat)
    requires table.Length0 == |a| + 1 && table.Length1 == |b| + 1
    requires forall i, j :: 0 <= i <= |a| && 0 <= j <= |b| ==> table[i, j] == Lcs(a, i, b, j)
    ensures var s := Walk(a, 0, b, 0); lines == Rows(s) && addedLines == Added(s) && removedLines == Removed(s)
  {
    hide Walk, Lcs, Rows, Added, Removed, Progress;
    lines, addedLines, removedLines := [], 0, 0;
    var i, j := 0, 0;
    ghost var all := Walk(a, 0, b, 0);
    WalkEnds(a, b, lines, 0, 0, all);
    while i < |a| || j < |b|
      invariant 0 <= i <= |a| && 0 <= j <= |b|
      invariant Progress(lines, addedLines, removedLines, Walk(a, i, b, j), all)
      decreases |a| - i + |b| - j
    {
      WalkStep(a, i, b, j);
      if i < |a| && j < |b| && a[i] == b[j] {
        ProgressStep(lines, addedLines, removedLines, Keep(a[i]), Walk(a, i + 1, b, j + 1), all);
        lines := lines + [[SPACE] + a[i]];
        i, j := i + 1, j + 1;
      } else if j < |b| && (i == |a| || table[i, j + 1] >= table[i + 1, j]) {
        ProgressStep(lines, addedLines, removedLines, Add(b[j]), Walk(a, i, b, j + 1), all);
        lines := lines + [[PLUS] + b[j]];
        addedLines := addedLines + 1;
        j := j + 1;
      } else if i < |a| {
        ProgressStep(lines, addedLines, removedLines, Remove(a[i]), Walk(a, i + 1, b, j), all);
        lines := lines + [[MINUS] + a[i]];
        removedLines := removedLines + 1;
        i := i + 1;
      }
    }
    WalkEnds(a, b, lines, addedLines, removedLines, all);
  }

  method BuildUnifiedMarkdownDiff(before: Text, after: Text) returns (d: MarkdownDiff)
    ensures d == DiffOf(before, after)
  {
    hide Walk, Lcs, Added, Removed, Rows, Join, Split;
    var beforeLines, afterLines := Split(before, NEWLINE), Split(after, NEWLINE);
    if (|beforeLines| + 1) * (|afterLines| + 1) > MAX_LCS_CELLS {
      var rows := Prefixed(Take(beforeLines, DIFF_LINE_LIMIT), MINUS) + Prefixed(Take(afterLines, DIFF_LINE_LIMIT), PLUS);
      return MarkdownDiff(Join(Take(rows, DIFF_LINE_LIMIT), NEWLINE), true, |afterLines|, |beforeLines|);
    }
    var table := FillTable(beforeLines, afterLines);
    var lines, addedLines, removedLines := WalkTable(beforeLines, afterLines, table);
    var truncated := |lines| > DIFF_LINE_LIMIT;
    d := MarkdownDiff(Join(if truncated then lines[..DIFF_LINE_LIMIT] else lines, NEWLINE), truncated, addedLines, removedLines);
  }
}
