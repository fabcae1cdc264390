/** "Under a path" is a statement about path segments. */
module RagPaths {
  import opened Lines
  import opened RagStore

  function Segments(path: Path): seq<string> {
    Split(path, '/')
  }

  /** Inside the folder, or the path itself; everything is inside "/". */
  predicate Inside(path: Path, prefix: Path) {
    prefix == "/" || Segments(prefix) <= Segments(path)
  }

  lemma SplitAppend<T>(a: seq<T>, sep: T, b: seq<T>)
    ensures Split(a + [sep] + b, sep) == Split(a, sep) + Split(b, sep)
  {
    hide Split, Join;
    SplitParts(a, sep);
    SplitParts(b, sep);
    JoinAppend(Split(a, sep), Split(b, sep), sep);
    JoinSplit(a, sep);
    JoinSplit(b, sep);
    SplitJoin(Split(a, sep) + Split(b, sep), sep);
  }

  lemma JoinPrefix(path: Path, root: Path)
    requires Segments(root) < Segments(path)
    ensures root + "/" <= path
  {
    var rest := Segments(path)[|Segments(root)|..];
    assert Segments(path) == Segments(root) + rest;
    JoinAppend(Segments(root), rest, '/');
    JoinSplit(root, '/');
    JoinSplit(path, '/');
    assert path == root + "/" + Join(rest, '/');
  }

  /** A descendant has all segments of its ancestor and more: "/workshop" is not below "/work". */
  lemma DescendantIsSegments(path: Path, root: Path)
    ensures IsDescendant(path, root) <==> Segments(root) < Segments(path)
  {
    if IsDescendant(path, root) {
      assert path == root + "/" + path[|root| + 1..];
      SplitAppend(root, '/', path[|root| + 1..]);
    } else if Segments(root) < Segments(path) {
      JoinPrefix(path, root);
    }
  }

  lemma TreeIsSegments(path: Path, root: Path)
    ensures InTree(path, root) <==> Segments(root) <= Segments(path)
    ensures MatchesPrefix(path, root) <==> Inside(path, root)
  {
    DescendantIsSegments(path, root);
    JoinSplit(path, '/');
    JoinSplit(root, '/');
    hide Split;
    if Segments(root) <= Segments(path) && !(Segments(root) < Segments(path)) {
      assert Segments(root) == Segments(path);
    }
  }

  /** The segments of the moved folder are exchanged for those of its new place; the ones below it stay. */
  predicate MovesTo(path: Path, next: Path, from: Path, to: Path) {
    Segments(from) <= Segments(path) && Segments(next) == Segments(to) + Segments(path)[|Segments(from)|..]
  }

  lemma MovedSegments(path: Path, from: Path, to: Path)
    requires InTree(path, from)
    ensures MovesTo(path, MovedPath(path, from, to), from, to)
  {
    TreeIsSegments(path, from);
    if path != from {
      var rest := path[|from| + 1..];
      assert path == from + "/" + rest && MovedPath(path, from, to) == to + "/" + rest;
      SplitAppend(from, '/', rest);
      SplitAppend(to, '/', rest);
    }
  }

  /** Two documents of the folder never move to the same place. */
  lemma MovedApart(path: Path, other: Path, from: Path, to: Path)
    requires InTree(path, from) && InTree(other, from)
    ensures MovedPath(path, from, to) == MovedPath(other, from, to) ==> path == other
  {
    var a, b := path[|from|..], other[|from|..];
    assert path == from + a && other == from + b;
    assert MovedPath(path, from, to) == to + a && MovedPath(other, from, to) == to + b;
    assert a == (to + a)[|to|..] && b == (to + b)[|to|..];
  }
}
