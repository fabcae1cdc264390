/** What search and reindexing amount to, said of texts and path segments. */
module RagLaws {
  import opened Wrappers
  import opened RagStore
  import opened RagPaths
  import Chunking
  import opened RagWorker
  import opened RagInvariants
  import opened RagRuns
  import opened RagMoves

  // ----- search -----

  /** The result for a hit on chunk `n` of a live document. */
  function RowFor(d: Doc, n: nat, score: real): SearchRow
    requires n < |Chunking.Pieces(d.text)|
  {
    SearchRow(d.path, d.version, n, score, Chunking.Pieces(d.text)[n])
  }

  lemma HitFindsRow(es: seq<Event>, user: UserId, prefix: Path, d: Doc, n: nat, score: real)
    requires d in Run(es).store.docs.Values && d.indexed && d.user == user && Inside(d.path, prefix) && n < |Chunking.Pieces(d.text)|
    ensures !HitIsStale(Run(es).store, user, prefix, PointId(user, d.id, d.version, n))
    ensures forall row :: HitYields(Run(es).store, user, prefix, PointId(user, d.id, d.version, n), score, row) ==> row == RowFor(d, n, score)
  {
    var s, point := Run(es).store, PointId(user, d.id, d.version, n);
    IndexedRowsAreCurrent(es, d);
    RunIsUnambiguous(es);
    hide Run, Chunking.Pieces;
    var c := ChunksOf(d)[n];
    assert c in s.chunks[(d.user, d.id)] && StoredRow(s, c) && c.point == point;
    TreeIsSegments(d.path, prefix);
    assert Reports(d, c, user, prefix);
    forall row | HitYields(s, user, prefix, point, score, row) ensures row == RowFor(d, n, score) {
      var e, f :| StoredRow(s, e) && e.point == point && f in s.docs.Values && Reports(f, e, user, prefix)
        && row == SearchRow(f.path, f.version, e.index, score, e.piece);
      assert e == c;
      SameId(s, d, f);
    }
  }

  lemma SameId(s: Store, d: Doc, e: Doc)
    requires UniqueIds(s) && d in s.docs.Values && e in s.docs.Values && d.id == e.id
    ensures d == e
  {}

  /** A hit that is not stale, and can only yield one row, yields it. */
  lemma {:induction false} HitIsReported(s: Store, user: UserId, prefix: Path, hits: seq<(PointId, real)>, rows: seq<SearchRow>, i: nat, r: SearchRow)
    requires SearchResult(s, user, prefix, hits, rows) && i < |hits|
    requires !HitIsStale(s, user, prefix, hits[i].0)
    requires forall row :: HitYields(s, user, prefix, hits[i].0, hits[i].1, row) ==> row == r
    ensures r in rows
    decreases |hits|
  {
    hide HitYields, HitIsStale;
    var before := hits[..|hits| - 1];
    if i < |before| {
      if SearchResult(s, user, prefix, before, rows) {
        HitIsReported(s, user, prefix, before, rows, i, r);
      } else {
        HitIsReported(s, user, prefix, before, rows[..|rows| - 1], i, r);
        assert rows == rows[..|rows| - 1] + [rows[|rows| - 1]];
      }
    }
  }

  /** Search completeness: every hit on a chunk of an indexed document of the user inside the prefix is reported. */
  lemma SearchIsComplete(es: seq<Event>, user: UserId, prefix: Path, hits: seq<(PointId, real)>, rows: seq<SearchRow>, i: nat, d: Doc, n: nat)
    requires SearchResult(Run(es).store, user, prefix, hits, rows)
    requires i < |hits| && hits[i].0 == PointId(user, d.id, d.version, n) && n < |Chunking.Pieces(d.text)|
    requires d in Run(es).store.docs.Values && d.indexed && d.user == user && Inside(d.path, prefix)
    ensures RowFor(d, n, hits[i].1) in rows
  {
    HitFindsRow(es, user, prefix, d, n, hits[i].1);
    hide *;
    HitIsReported(Run(es).store, user, prefix, hits, rows, i, RowFor(d, n, hits[i].1));
  }

  predicate Descending(scores: seq<real>) {
    forall i, j :: 0 <= i < j < |scores| ==> scores[i] >= scores[j]
  }

  function HitScores(hits: seq<(PointId, real)>): (r: seq<real>)
    ensures |r| == |hits| && forall i :: 0 <= i < |r| ==> r[i] == hits[i].1
  {
    seq(|hits|, i requires 0 <= i < |hits| => hits[i].1)
  }

  function RowScores(rows: seq<SearchRow>): (r: seq<real>)
    ensures |r| == |rows| && forall i :: 0 <= i < |r| ==> r[i] == rows[i].score
  {
    seq(|rows|, i requires 0 <= i < |rows| => rows[i].score)
  }

  /** Hits that come best first are reported best first; there is at most one row for each. */
  lemma {:induction false} SearchKeepsRanking(s: Store, user: UserId, prefix: Path, hits: seq<(PointId, real)>, rows: seq<SearchRow>)
    requires SearchResult(s, user, prefix, hits, rows) && Descending(HitScores(hits))
    ensures Descending(RowScores(rows)) && |rows| <= |hits|
    ensures hits != [] ==> forall row <- rows :: row.score >= hits[|hits| - 1].1
    decreases |hits|
  {
    hide HitIsStale;
    if hits != [] {
      var last, before := hits[|hits| - 1], hits[..|hits| - 1];
      assert Descending(HitScores(before)) by {
        forall i, j | 0 <= i < j < |before| ensures before[i].1 >= before[j].1 { assert HitScores(hits)[i] >= HitScores(hits)[j]; }
      }
      if before != [] { assert HitScores(hits)[|before| - 1] >= HitScores(hits)[|before|]; }
      if SearchResult(s, user, prefix, before, rows) {
        SearchKeepsRanking(s, user, prefix, before, rows);
      } else {
        var front := rows[..|rows| - 1];
        SearchKeepsRanking(s, user, prefix, before, front);
        assert rows == front + [rows[|rows| - 1]];
        assert forall i :: 0 <= i < |front| ==> RowScores(rows)[i] == RowScores(front)[i] && front[i] in front;
      }
    }
  }

  // ----- reindexing -----

  lemma {:induction false} ReindexQueues(s: Store, order: seq<Doc>, now: int)
    ensures var t := PushJobs(s, order, now);
      && t.docs == s.docs && t.chunks == s.chunks && t.nextId == s.nextId
      && |t.jobs| == |s.jobs| + |order| && t.jobs[..|s.jobs|] == s.jobs
      && forall i :: 0 <= i < |order| ==>
        t.jobs[|s.jobs| + i] == Job(|s.jobs| + i, order[i].user, order[i].id, order[i].version, order[i].hash, IndexMarkdown, Pending, 0, now, None)
  {
    if order != [] { ReindexQueues(s, order[..|order| - 1], now); }
  }

  /** A new row asks to index the current version of this document. */
  predicate AsksFor(j: Job, d: Doc) {
    j.user == d.user && j.doc == d.id && j.version == d.version && j.hash == d.hash && j.kind == IndexMarkdown && j.status == Pending && j.attempts == 0
  }

  /** The live documents of the user inside the prefix. */
  function InsideDocs(s: Store, user: UserId, prefix: Path): set<Doc> {
    set d | d in s.docs.Values && d.user == user && Inside(d.path, prefix)
  }

  function DocSet(order: seq<Doc>): set<Doc> {
    set d | d in order
  }

  lemma EnumeratesInside(s: Store, user: UserId, order: seq<Doc>, prefix: Path)
    requires Enumerates(order, s, user, p => MatchesPrefix(p, prefix)) && KeysOk(s)
    ensures Distinct(order) && DocSet(order) == InsideDocs(s, user, prefix)
  {
    forall d | d in s.docs.Values ensures d in order <==> d.user == user && Inside(d.path, prefix) {
      TreeIsSegments(d.path, prefix);
      var k :| k in s.docs && s.docs[k] == d;
    }
  }

  lemma {:induction false} DistinctCount(order: seq<Doc>)
    requires Distinct(order)
    ensures |DocSet(order)| == |order|
  {
    if order != [] {
      var n := |order| - 1;
      DistinctCount(order[..n]);
      assert order == order[..n] + [order[n]];
      assert DocSet(order) == DocSet(order[..n]) + {order[n]};
    } else {
      assert DocSet(order) == {};
    }
  }

  predicate AsksForOne(j: Job, docs: set<Doc>) {
    exists d <- docs :: AsksFor(j, d)
  }

  predicate IsAskedFor(rows: seq<Job>, d: Doc) {
    exists j <- rows :: AsksFor(j, d)
  }

  ghost predicate RowsAskFor(rows: seq<Job>, docs: set<Doc>) {
    && (forall j <- rows :: AsksForOne(j, docs))
    && (forall d <- docs :: IsAskedFor(rows, d))
  }

  lemma QueuedRowsAsk(s: Store, order: seq<Doc>, now: int)
    ensures var t := PushJobs(s, order, now); |s.jobs| <= |t.jobs| && RowsAskFor(t.jobs[|s.jobs|..], DocSet(order))
  {
    ReindexQueues(s, order, now);
    var rows := PushJobs(s, order, now).jobs[|s.jobs|..];
    hide PushJobs;
    assert forall i :: 0 <= i < |order| ==> AsksFor(rows[i], order[i]);
    hide AsksFor;
    forall j | j in rows ensures AsksForOne(j, DocSet(order)) {
      var i :| 0 <= i < |rows| && rows[i] == j;
      assert AsksFor(rows[i], order[i]) && order[i] in DocSet(order);
    }
    forall d | d in DocSet(order) ensures IsAskedFor(rows, d) {
      var i :| 0 <= i < |order| && order[i] == d;
      assert AsksFor(rows[i], order[i]) && rows[i] in rows;
    }
  }

  /** In every run: reindexing queues one job for every document of the user inside the prefix, and none for any other. */
  lemma ReindexBySegments(es: seq<Event>, user: UserId, order: seq<Doc>, prefix: Path, now: int)
    requires Enumerates(order, Run(es).store, user, p => MatchesPrefix(p, prefix))
    ensures var s, t := Run(es).store, Step(Run(es), Reindex(user, order, prefix, now)).store;
      && t.docs == s.docs && |t.jobs| == |s.jobs| + |InsideDocs(s, user, prefix)| && t.jobs[..|s.jobs|] == s.jobs
      && RowsAskFor(t.jobs[|s.jobs|..], InsideDocs(s, user, prefix))
  {
    var s := Run(es).store;
    RunKeeps(es);
    EnumeratesInside(s, user, order, prefix);
    assert Step(Run(es), Reindex(user, order, prefix, now)).store == PushJobs(s, order, now) by { hide Run, Enumerates, PushJobs; }
    hide *;
    ReindexQueues(s, order, now);
    QueuedRowsAsk(s, order, now);
    DistinctCount(order);
  }
}
