/** Splitting on a separator, joining with one, and trimming, for any element type. */
module Lines {

  function Split<T(==)>(s: seq<T>, sep: T): (parts: seq<seq<T>>)
    ensures |parts| >= 1
  {
    if s == [] then [[]]
    else
      var rest := Split(s[1..], sep);
      if s[0] == sep then [[]] + rest else [[s[0]] + rest[0]] + rest[1..]
  }

  function Join<T>(parts: seq<seq<T>>, sep: T): seq<T> {
    if parts == [] then []
    else if |parts| == 1 then parts[0]
    else parts[0] + [sep] + Join(parts[1..], sep)
  }

  /** No part contains the separator. */
  predicate Parts<T(==)>(parts: seq<seq<T>>, sep: T) {
    forall p <- parts :: sep !in p
  }

  lemma {:induction false} SplitParts<T>(s: seq<T>, sep: T)
    ensures Parts(Split(s, sep), sep)
  {
    if s != [] {
      var rest := Split(s[1..], sep);
      SplitParts(s[1..], sep);
      assert rest[0] in rest;
      forall p | p in rest[1..] ensures sep !in p { assert p in rest; }
    }
  }

  lemma {:induction false} JoinSplit<T>(s: seq<T>, sep: T)
    ensures Join(Split(s, sep), sep) == s
  {
    if s != [] {
      var rest := Split(s[1..], sep);
      JoinSplit(s[1..], sep);
      if s[0] == sep {
        assert ([[]] + rest)[1..] == rest;
      } else {
        assert ([[s[0]] + rest[0]] + rest[1..])[1..] == rest[1..];
      }
    }
  }

  lemma {:induction false} SplitPrefix<T>(a: seq<T>, sep: T, b: seq<T>)
    requires sep !in a
    ensures Split(a, sep) == [a]
    ensures Split(a + [sep] + b, sep) == [a] + Split(b, sep)
  {
    if a == [] {
      assert (a + [sep] + b)[1..] == b;
    } else {
      SplitPrefix(a[1..], sep, b);
      assert (a + [sep] + b)[1..] == a[1..] + [sep] + b;
      assert [a[0]] + a[1..] == a;
      var rest := Split(a[1..] + [sep] + b, sep);
      assert rest[1..] == Split(b, sep);
    }
  }

  lemma {:induction false} SplitJoin<T>(parts: seq<seq<T>>, sep: T)
    requires parts != [] && Parts(parts, sep)
    ensures Split(Join(parts, sep), sep) == parts
  {
    assert parts[0] in parts;
    if |parts| == 1 {
      SplitPrefix(parts[0], sep, []);
    } else {
      SplitJoin(parts[1..], sep);
      SplitPrefix(parts[0], sep, Join(parts[1..], sep));
    }
  }

  lemma {:induction false} JoinAppend<T>(a: seq<seq<T>>, b: seq<seq<T>>, sep: T)
    requires a != [] && b != []
    ensures Join(a + b, sep) == Join(a, sep) + [sep] + Join(b, sep)
  {
    if |a| == 1 {
      assert (a + b)[1..] == b;
    } else {
      JoinAppend(a[1..], b, sep);
      assert (a + b)[1..] == a[1..] + b;
    }
  }

  // ----- trimming -----

  function TrimStart<T>(s: seq<T>, blank: T -> bool): (r: seq<T>)
    ensures r == [] || !blank(r[0])
    ensures |r| <= |s| && r == s[|s| - |r|..]
  {
    if s != [] && blank(s[0]) then TrimStart(s[1..], blank) else s
  }

  function TrimEnd<T>(s: seq<T>, blank: T -> bool): (r: seq<T>)
    ensures r == [] || !blank(r[|r| - 1])
    ensures |r| <= |s| && r == s[..|r|]
  {
    if s != [] && blank(s[|s| - 1]) then TrimEnd(s[..|s| - 1], blank) else s
  }

  function Trim<T>(s: seq<T>, blank: T -> bool): (r: seq<T>)
    ensures r == [] || (!blank(r[0]) && !blank(r[|r| - 1]))
  {
    var t := TrimStart(s, blank);
    var r := TrimEnd(t, blank);
    assert r != [] ==> r[0] == t[0];
    r
  }

  predicate AllBlank<T>(s: seq<T>, blank: T -> bool) {
    forall i :: 0 <= i < |s| ==> blank(s[i])
  }

  lemma {:induction false} TrimStartCut<T>(s: seq<T>, blank: T -> bool)
    ensures AllBlank(s[..|s| - |TrimStart(s, blank)|], blank)
  {
    if s != [] && blank(s[0]) {
      TrimStartCut(s[1..], blank);
      var n := |s| - |TrimStart(s, blank)|;
      assert s[..n] == [s[0]] + s[1..][..n - 1];
    }
  }

  lemma {:induction false} TrimEndCut<T>(s: seq<T>, blank: T -> bool)
    ensures AllBlank(s[|TrimEnd(s, blank)|..], blank)
  {
    if s != [] && blank(s[|s| - 1]) {
      TrimEndCut(s[..|s| - 1], blank);
      var n := |TrimEnd(s, blank)|;
      assert s[n..] == s[..|s| - 1][n..] + [s[|s| - 1]];
    }
  }

  lemma Glued<T>(s: seq<T>, i: nat, n: nat)
    requires i + n <= |s|
    ensures s == s[..i] + s[i..][..n] + s[i..][n..]
  {}

  /** Trimming cuts blanks off both ends and nothing else. */
  lemma TrimCuts<T>(s: seq<T>, blank: T -> bool) returns (front: seq<T>, back: seq<T>)
    ensures s == front + Trim(s, blank) + back && AllBlank(front, blank) && AllBlank(back, blank)
  {
    var t := TrimStart(s, blank);
    var r := TrimEnd(t, blank);
    front, back := s[..|s| - |t|], t[|r|..];
    TrimStartCut(s, blank);
    TrimEndCut(t, blank);
    hide AllBlank, TrimStart, TrimEnd;
    Glued(s, |s| - |t|, |r|);
  }

  lemma TrimFixed<T>(s: seq<T>, blank: T -> bool)
    requires s == [] || (!blank(s[0]) && !blank(s[|s| - 1]))
    ensures Trim(s, blank) == s
  {}
}
