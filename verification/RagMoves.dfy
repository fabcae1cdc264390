/** Moving a subtree of documents: exactly when a move loses some of them. */
module RagMoves {
  import opened Wrappers
  import opened RagStore
  import opened RagPaths
  import opened RagWorker
  import opened RagInvariants
  import opened RagRuns

  function SourceKey(d: Doc): (UserId, Path) {
    (d.user, d.path)
  }

  function TargetKey(d: Doc, from: Path, to: Path): (UserId, Path)
    requires InTree(d.path, from)
  {
    (d.user, MovedPath(d.path, from, to))
  }

  /** The document's target is held by another one when it is written. */
  predicate Overwrites(s: Store, d: Doc, from: Path, to: Path)
    requires InTree(d.path, from)
  {
    TargetKey(d, from, to) in s.docs && TargetKey(d, from, to) != SourceKey(d)
  }

  /** How many of the moves, one after the other, find their target held. */
  function Overwritten(s: Store, order: seq<Doc>, from: Path, to: Path, now: int): nat
    requires forall d <- order :: InTree(d.path, from)
  {
    if order == [] then 0
    else
      var front, last := order[..|order| - 1], order[|order| - 1];
      Overwritten(s, front, from, to, now) + if Overwrites(MoveDocs(s, front, from, to, now), last, from, to) then 1 else 0
  }

  /** Stored documents of the subtree, each once. */
  predicate Listed(order: seq<Doc>, s: Store, from: Path) {
    && (forall d <- order :: InTree(d.path, from) && SourceKey(d) in s.docs && s.docs[SourceKey(d)] == d)
    && (forall i, j :: 0 <= i < j < |order| ==> SourceKey(order[i]) != SourceKey(order[j]))
  }

  lemma OneIsListed(order: seq<Doc>, s: Store, from: Path, i: nat)
    requires Listed(order, s, from) && i < |order|
    ensures InTree(order[i].path, from) && SourceKey(order[i]) in s.docs && s.docs[SourceKey(order[i])] == order[i]
    ensures Listed(order[..i], s, from)
  {
    assert order[i] in order;
    forall d | d in order[..i] ensures d in order {}
  }

  lemma {:induction false} SourcesRemain(s: Store, order: seq<Doc>, i: nat, from: Path, to: Path, now: int)
    requires Listed(order, s, from) && i <= |order|
    ensures forall d <- order[..i] :: InTree(d.path, from)
    ensures forall j :: i <= j < |order| ==> SourceKey(order[j]) in MoveDocs(s, order[..i], from, to, now).docs
  {
    if i == 0 {
      forall j | 0 <= j < |order| ensures SourceKey(order[j]) in s.docs { OneIsListed(order, s, from, j); }
    } else {
      SourcesRemain(s, order, i - 1, from, to, now);
      OneIsListed(order, s, from, i - 1);
      assert order[..i][..i - 1] == order[..i - 1];
      assert MoveDocs(s, order[..i], from, to, now) == MoveOne(MoveDocs(s, order[..i - 1], from, to, now), order[i - 1], from, to, now);
    }
  }

  lemma CardinalityOfUpdate(docs: map<(UserId, Path), Doc>, source: (UserId, Path), target: (UserId, Path), d: Doc)
    requires source in docs
    ensures |(docs - {source})[target := d]| == |docs| - if target in docs && target != source then 1 else 0
  {
    var without := docs - {source};
    assert without.Keys == docs.Keys - {source};
    assert |without.Keys| == |docs.Keys| - 1;
    var after := without[target := d];
    assert after.Keys == without.Keys + {target};
    assert |after.Keys| == |without.Keys| + if target in without then 0 else 1;
    assert |after| == |after.Keys| && |docs| == |docs.Keys|;
  }

  /** Every move whose target is held costs exactly one document, and no other one does. */
  lemma {:induction false} MoveCounts(s: Store, order: seq<Doc>, from: Path, to: Path, now: int)
    requires Listed(order, s, from)
    ensures forall d <- order :: InTree(d.path, from)
    ensures |MoveDocs(s, order, from, to, now).docs| + Overwritten(s, order, from, to, now) == |s.docs|
    decreases |order|
  {
    if order != [] {
      var n := |order| - 1;
      var front, last := order[..n], order[n];
      OneIsListed(order, s, from, n);
      MoveCounts(s, front, from, to, now);
      SourcesRemain(s, order, n, from, to, now);
      CardinalityOfUpdate(MoveDocs(s, front, from, to, now).docs, SourceKey(last), TargetKey(last, from, to), MovedDoc(last, from, to));
    }
  }

  // ----- which documents are left -----

  function IdsIn(docs: map<(UserId, Path), Doc>): set<nat> {
    set k | k in docs :: docs[k].id
  }

  lemma {:induction false} CountIds(docs: map<(UserId, Path), Doc>)
    ensures |IdsIn(docs)| <= |docs|
    ensures (forall k <- docs, l <- docs :: docs[k].id == docs[l].id ==> k == l) ==> |IdsIn(docs)| == |docs|
    decreases |docs|
  {
    if docs == map[] {
      assert IdsIn(docs) == {};
    } else {
      var k :| k in docs;
      var rest := docs - {k};
      assert rest.Keys == docs.Keys - {k};
      assert |rest| == |rest.Keys| && |docs| == |docs.Keys|;
      CountIds(rest);
      assert IdsIn(docs) == IdsIn(rest) + {docs[k].id};
      if forall k <- docs, l <- docs :: docs[k].id == docs[l].id ==> k == l {
        assert docs[k].id !in IdsIn(rest);
        assert forall k <- rest, l <- rest :: rest[k].id == rest[l].id ==> k == l;
      }
    }
  }

  /** A move makes no new document. */
  lemma {:induction false} NoNewIds(s: Store, order: seq<Doc>, from: Path, to: Path, now: int)
    requires Listed(order, s, from)
    ensures forall d <- order :: InTree(d.path, from)
    ensures IdsIn(MoveDocs(s, order, from, to, now).docs) <= IdsIn(s.docs)
    decreases |order|
  {
    if order != [] {
      var n := |order| - 1;
      var front, last := order[..n], order[n];
      OneIsListed(order, s, from, n);
      NoNewIds(s, front, from, to, now);
      var before, after := MoveDocs(s, front, from, to, now).docs, MoveDocs(s, order, from, to, now).docs;
      forall id | id in IdsIn(after) ensures id in IdsIn(s.docs) {
        var k :| k in after && after[k].id == id;
        if after[k] != MovedDoc(last, from, to) { assert k in before && before[k] == after[k] && id in IdsIn(before); }
      }
    }
  }

  lemma UniqueInInvariant(D: set<Doc>, s: Store)
    requires KeysOk(s) && DocsOk(D, s) && s.docs.Values <= D
    ensures UniqueIds(s)
  {
    forall k, l | k in s.docs && l in s.docs && s.docs[k].id == s.docs[l].id ensures k == l {
      assert s.docs[k] in s.docs.Values && s.docs[l] in s.docs.Values;
    }
  }

  lemma SameSize(a: set<nat>, b: set<nat>)
    requires a <= b && |a| == |b|
    ensures a == b
  {
    assert b == a + (b - a);
    assert |b| == |a| + |b - a|;
  }

  lemma EnumeratedIsListed(order: seq<Doc>, s: Store, user: UserId, from: Path)
    requires KeysOk(s) && Enumerates(order, s, user, p => InTree(p, from))
    ensures Listed(order, s, from) && Distinct(order)
    ensures forall d <- order :: d in s.docs.Values && InTree(d.path, from)
  {
    forall d | d in order ensures InTree(d.path, from) && SourceKey(d) in s.docs && s.docs[SourceKey(d)] == d {
      var k :| k in s.docs && s.docs[k] == d;
      assert k == SourceKey(d);
    }
    forall i, j | 0 <= i < j < |order| ensures SourceKey(order[i]) != SourceKey(order[j]) {
      assert order[i] in order && order[j] in order && order[i] != order[j];
    }
  }

  /** The documents with these keys, each once. */
  lemma {:induction false} ListKeys(s: Store, keys: set<(UserId, Path)>) returns (order: seq<Doc>)
    requires KeysOk(s) && forall k <- keys :: k in s.docs
    ensures forall d <- order :: (d.user, d.path) in keys && s.docs[(d.user, d.path)] == d
    ensures forall k <- keys :: s.docs[k] in order
    ensures forall i, j :: 0 <= i < j < |order| ==> order[i] != order[j]
    decreases |keys|
  {
    order := [];
    if keys != {} {
      var k :| k in keys;
      var rest := ListKeys(s, keys - {k});
      assert forall d <- rest :: (d.user, d.path) != k;
      order := rest + [s.docs[k]];
      assert order[|rest|] == s.docs[k];
      forall l | l in keys ensures s.docs[l] in order { if l != k { assert s.docs[l] in rest; } }
    }
  }

  /** The documents of a user that satisfy a condition can be listed: a move and a reindex always have an order to go by. */
  lemma SomeOrder(es: seq<Event>, user: UserId, p: Path -> bool) returns (order: seq<Doc>)
    ensures Enumerates(order, Run(es).store, user, p)
  {
    KeysOfRun(es);
    var s := Run(es).store;
    hide Run, KeysOk;
    order := ListKeys(s, set k | k in s.docs && k.0 == user && p(k.1));
    forall d | d in order ensures d in s.docs.Values && d.user == user && p(d.path) {
      assert s.docs[(d.user, d.path)] in s.docs.Values;
    }
  }

  lemma KeysOfRun(es: seq<Event>)
    ensures KeysOk(Run(es).store)
  {
    RunKeeps(es);
  }

  lemma UniqueAfterMove(s: System, order: seq<Doc>, from: Path, to: Path, now: int)
    requires Invariant(s) && Distinct(order) && forall d <- order :: d in s.store.docs.Values && InTree(d.path, from)
    ensures UniqueIds(s.store) && UniqueIds(MoveDocs(s.store, order, from, to, now))
  {
    UniqueInInvariant(s.store.docs.Values, s.store);
    hide Invariant, UniqueIds;
    var D := MoveKeeps(s, order, |order|, from, to, now);
    assert order[..|order|] == order;
    UniqueInInvariant(D, MoveDocs(s.store, order, from, to, now));
  }

  lemma CountUniqueIds(s: Store)
    requires UniqueIds(s)
    ensures |IdsIn(s.docs)| == |s.docs|
  {
    CountIds(s.docs);
  }

  /**
   In every reachable state: a move keeps every document if and only if none of its writes finds its
   target held by another document; each one that does costs one document.
   */
  lemma MoveKeepsAllIff(es: seq<Event>, user: UserId, order: seq<Doc>, from: Path, to: Path, now: int)
    requires Enumerates(order, Run(es).store, user, p => InTree(p, from))
    ensures forall d <- order :: InTree(d.path, from)
    ensures var s := Run(es).store; var t := MoveDocs(s, order, from, to, now);
      && |t.docs| == |s.docs| - Overwritten(s, order, from, to, now)
      && (IdsIn(t.docs) == IdsIn(s.docs) <==> Overwritten(s, order, from, to, now) == 0)
  {
    var s := Run(es);
    RunKeeps(es);
    EnumeratedIsListed(order, s.store, user, from);
    hide Run, Invariant, Enumerates, MoveDocs, Overwritten, IdsIn, UniqueIds;
    MoveCounts(s.store, order, from, to, now);
    NoNewIds(s.store, order, from, to, now);
    var t := MoveDocs(s.store, order, from, to, now);
    UniqueAfterMove(s, order, from, to, now);
    CountUniqueIds(s.store);
    CountUniqueIds(t);
    if |t.docs| == |s.store.docs| { SameSize(IdsIn(t.docs), IdsIn(s.store.docs)); }
  }

  /** Moving a folder into itself: the document on top takes the place of the one below it, and is then moved away as if it were that one. */
  lemma MoveIntoItself(a: Doc, b: Doc, s: Store, now: int)
    requires a.path == "/a" && b.path == "/a/b" && a.user == b.user && a.id != b.id
    requires s.docs == map[SourceKey(a) := a, SourceKey(b) := b]
    ensures Listed([a, b], s, "/a") && Overwritten(s, [a, b], "/a", "/a/b", now) == 1
    ensures MoveDocs(s, [a, b], "/a", "/a/b", now).docs == map[(b.user, "/a/b/b") := MovedDoc(b, "/a", "/a/b")]
  {
    assert MovedPath(a.path, "/a", "/a/b") == "/a/b";
    assert "/a" + "/" == "/a/" && "/a/" <= "/a/b";
    assert b.path[|"/a"|..] == "/b";
    assert MovedPath(b.path, "/a", "/a/b") == "/a/b/b";
    var s1 := MoveOne(s, a, "/a", "/a/b", now);
    assert s1.docs == map[SourceKey(b) := MovedDoc(a, "/a", "/a/b")];
    assert [a, b][..1] == [a] && [a][..0] == [];
    assert MoveDocs(s, [], "/a", "/a/b", now) == s;
    assert MoveDocs(s, [a], "/a", "/a/b", now) == s1;
    assert Overwritten(s, [a], "/a", "/a/b", now) == 1;
    assert TargetKey(b, "/a", "/a/b") !in s1.docs;
  }

  // ----- what a move does to every key -----

  /** The document as the move stores it: the same one a version later, to be indexed again, with the folder's segments exchanged. */
  predicate ArrivedAs(e: Doc, d: Doc, from: Path, to: Path) {
    && MovesTo(d.path, e.path, from, to)
    && e.id == d.id && e.user == d.user && e.text == d.text && e.hash == d.hash
    && e.version == d.version + 1 && !e.indexed
  }

  /** The `i`-th moved document is at its new path unless a later move takes that path's document away, or writes there. */
  predicate Undisturbed(order: seq<Doc>, i: nat, e: Doc)
    requires i < |order|
  {
    forall j :: i < j < |order| ==> order[j].path != e.path
  }

  lemma MovedArrives(d: Doc, from: Path, to: Path)
    requires InTree(d.path, from)
    ensures ArrivedAs(MovedDoc(d, from, to), d, from, to)
    ensures InTree(MovedDoc(d, from, to).path, to)
  {
    MovedSegments(d.path, from, to);
    TreeIsSegments(MovedDoc(d, from, to).path, to);
  }

  lemma {:induction false} MovedStays(s: Store, order: seq<Doc>, i: nat, from: Path, to: Path, now: int)
    requires Listed(order, s, from) && i < |order| && (forall d <- order :: InTree(d.path, from) && d.user == order[i].user)
    requires Undisturbed(order, i, MovedDoc(order[i], from, to))
    ensures var e, t := MovedDoc(order[i], from, to), MoveDocs(s, order, from, to, now); (e.user, e.path) in t.docs && t.docs[(e.user, e.path)] == e
    decreases |order|
  {
    var n := |order| - 1;
    if i < n {
      forall d | d in order[..n] ensures d in order {}
      OneIsListed(order, s, from, n);
      MovedStays(s, order[..n], i, from, to, now);
      MovedApart(order[i].path, order[n].path, from, to);
      assert SourceKey(order[i]) != SourceKey(order[n]);
    }
  }

  /** Every document after the move was there before under its key, or arrived. */
  lemma {:induction false} OnlyArrivals(s: Store, order: seq<Doc>, from: Path, to: Path, now: int, k: (UserId, Path))
    requires forall d <- order :: InTree(d.path, from)
    requires k in MoveDocs(s, order, from, to, now).docs
    ensures var d := MoveDocs(s, order, from, to, now).docs[k];
      || (k in s.docs && d == s.docs[k])
      || (exists c <- order :: ArrivedAs(d, c, from, to))
    decreases |order|
  {
    if order != [] {
      var n := |order| - 1;
      var c := order[n];
      assert c in order && InTree(c.path, from);
      MovedArrives(c, from, to);
      hide ArrivedAs, MovedDoc;
      var front := MoveDocs(s, order[..n], from, to, now);
      if k in front.docs && MoveDocs(s, order, from, to, now).docs[k] == front.docs[k] { OnlyArrivals(s, order[..n], from, to, now, k); }
    }
  }

  lemma {:induction false} MoveQueues(s: Store, order: seq<Doc>, from: Path, to: Path, now: int)
    requires forall d <- order :: InTree(d.path, from)
    ensures var jobs := MoveDocs(s, order, from, to, now).jobs;
      && |jobs| == |s.jobs| + |order| && jobs[..|s.jobs|] == s.jobs
      && forall i :: 0 <= i < |order| ==>
        jobs[|s.jobs| + i] == Job(|s.jobs| + i, order[i].user, order[i].id, order[i].version + 1, order[i].hash, IndexMarkdown, Pending, 0, now, None)
    decreases |order|
  {
    if order != [] {
      var n := |order| - 1;
      assert order[n] in order && InTree(order[n].path, from);
      MoveQueues(s, order[..n], from, to, now);
    }
  }

  lemma {:induction false} OutsideStays(s: Store, order: seq<Doc>, from: Path, to: Path, now: int, k: (UserId, Path))
    requires forall d <- order :: InTree(d.path, from)
    requires k in s.docs && !(exists d <- order :: SourceKey(d) == k) && !(exists d <- order :: d.user == k.0 && InTree(d.path, from) && MovedPath(d.path, from, to) == k.1)
    ensures k in MoveDocs(s, order, from, to, now).docs && MoveDocs(s, order, from, to, now).docs[k] == s.docs[k]
    decreases |order|
  {
    if order != [] {
      var n := |order| - 1;
      var c := order[n];
      assert c in order && InTree(c.path, from);
      OutsideStays(s, order[..n], from, to, now, k);
      assert SourceKey(c) != k && TargetKey(c, from, to) != k;
    }
  }

  /** A document outside the moved folder is untouched, or a moved one is written under its key. */
  ghost predicate OutsideKept(s: Store, t: Store, user: UserId, order: seq<Doc>, from: Path, to: Path, k: (UserId, Path)) {
    k in s.docs && (k.0 != user || !(Segments(from) <= Segments(k.1))) ==>
      (k in t.docs && t.docs[k] == s.docs[k]) || (exists d <- order :: k.0 == user && MovesTo(d.path, k.1, from, to))
  }

  /** What is stored was there before under its key, or arrived. */
  ghost predicate NothingElse(s: Store, t: Store, order: seq<Doc>, from: Path, to: Path, k: (UserId, Path)) {
    k in t.docs ==> (k in s.docs && t.docs[k] == s.docs[k]) || (exists d <- order :: ArrivedAs(t.docs[k], d, from, to))
  }

  /** The `i`-th moved document is at its new place, or a later move takes a document away from there. */
  ghost predicate IsFound(t: Store, order: seq<Doc>, from: Path, to: Path, i: nat)
    requires i < |order|
  {
    || (exists j :: i < j < |order| && MovesTo(order[i].path, order[j].path, from, to))
    || (exists k <- t.docs :: ArrivedAs(t.docs[k], order[i], from, to))
  }

  lemma OutsideOne(s: Store, user: UserId, order: seq<Doc>, from: Path, to: Path, now: int, k: (UserId, Path))
    requires forall d <- order :: d.user == user && InTree(d.path, from)
    ensures OutsideKept(s, MoveDocs(s, order, from, to, now), user, order, from, to, k)
  {
    if k in s.docs && (k.0 != user || !(Segments(from) <= Segments(k.1))) && !exists d <- order :: k.0 == user && MovesTo(d.path, k.1, from, to) {
      forall d | d in order ensures SourceKey(d) != k && !(d.user == k.0 && MovedPath(d.path, from, to) == k.1) {
        TreeIsSegments(d.path, from);
        MovedSegments(d.path, from, to);
      }
      OutsideStays(s, order, from, to, now, k);
    }
  }

  lemma FoundOne(s: Store, user: UserId, order: seq<Doc>, i: nat, from: Path, to: Path, now: int)
    requires Listed(order, s, from) && i < |order| && forall d <- order :: d.user == user && InTree(d.path, from)
    ensures IsFound(MoveDocs(s, order, from, to, now), order, from, to, i)
  {
    var e := MovedDoc(order[i], from, to);
    assert order[i] in order;
    MovedArrives(order[i], from, to);
    hide ArrivedAs, MovesTo, Listed;
    if Undisturbed(order, i, e) {
      MovedStays(s, order, i, from, to, now);
    } else {
      var j :| i < j < |order| && order[j].path == e.path;
      MovedSegments(order[i].path, from, to);
    }
  }

  /**
   In every reachable state, on path segments: a document outside the moved folder keeps its key, text and
   version unless a moved one is written there; every document of the folder is found at its new path
   unless a later move takes its place; and nothing else is stored.
   */
  lemma MoveBySegments(es: seq<Event>, user: UserId, order: seq<Doc>, from: Path, to: Path, now: int)
    requires Enumerates(order, Run(es).store, user, p => InTree(p, from))
    ensures forall d <- order :: InTree(d.path, from)
    ensures var s, t := Run(es).store, Step(Run(es), Move(user, order, from, to, now)).store;
      && (forall k :: OutsideKept(s, t, user, order, from, to, k) && NothingElse(s, t, order, from, to, k))
      && (forall i: nat :: i < |order| ==> IsFound(t, order, from, to, i))
  {
    hide OutsideKept, NothingElse, IsFound, Run, MoveDocs;
    var s := Run(es).store;
    RunKeeps(es);
    EnumeratedIsListed(order, s, user, from);
    assert Step(Run(es), Move(user, order, from, to, now)).store == MoveDocs(s, order, from, to, now) by { hide Enumerates; }
    forall k ensures OutsideKept(s, MoveDocs(s, order, from, to, now), user, order, from, to, k) { OutsideOne(s, user, order, from, to, now, k); }
    forall k ensures NothingElse(s, MoveDocs(s, order, from, to, now), order, from, to, k) { OnlyStored(s, order, from, to, now, k); }
    forall i: nat | i < |order| ensures IsFound(MoveDocs(s, order, from, to, now), order, from, to, i) { FoundOne(s, user, order, i, from, to, now); }
  }

  lemma OnlyStored(s: Store, order: seq<Doc>, from: Path, to: Path, now: int, k: (UserId, Path))
    requires forall d <- order :: InTree(d.path, from)
    ensures NothingElse(s, MoveDocs(s, order, from, to, now), order, from, to, k)
  {
    if k in MoveDocs(s, order, from, to, now).docs { OnlyArrivals(s, order, from, to, now, k); }
  }
}
