/** The numbers of the indexing queue: which documents are indexed at all, and which rows a claim hands out. */
module RagLimits {
  import opened Wrappers
  import opened RagStore
  import Chunking
  import opened RagWorker
  import opened RagInvariants
  import opened RagRuns

  // ----- size limits -----

  predicate Small(d: Doc) {
    |d.text| <= 250_000 && Chunking.SectionCount(d.text) <= 400 && |Chunking.Pieces(d.text)| <= 256
  }

  ghost predicate AllSmall(s: System) {
    && (forall d <- s.store.docs.Values :: d.indexed ==> Small(d))
    && (forall w <- s.workers :: s.workers[w].task.Upserting? ==> Small(s.workers[w].task.doc))
  }

  ghost predicate NoneNewlyIndexed(s: Store, t: Store) {
    forall e <- t.docs.Values :: e.indexed ==> exists d <- s.docs.Values :: d.indexed && d.text == e.text
  }

  lemma {:induction false} MoveIndexesNone(s: Store, order: seq<Doc>, from: Path, to: Path, now: int)
    requires forall d <- order :: InTree(d.path, from)
    ensures NoneNewlyIndexed(s, MoveDocs(s, order, from, to, now))
    decreases |order|
  {
    if order != [] {
      var n := |order| - 1;
      assert InTree(order[n].path, from);
      MoveIndexesNone(s, order[..n], from, to, now);
      var front, t := MoveDocs(s, order[..n], from, to, now), MoveDocs(s, order, from, to, now);
      forall e | e in t.docs.Values && e.indexed ensures exists d <- s.docs.Values :: d.indexed && d.text == e.text {
        assert e in front.docs.Values;
      }
    }
  }

  lemma StoreEventSmall(s: System, e: Event)
    requires Invariant(s) && AllSmall(s) && (e.Write? || e.Remove? || e.Move? || e.Reindex? || e.Retry?)
    ensures AllSmall(Step(s, e))
  {
    hide Small, Invariant;
    match e {
      case Move(user, order, from, to, now) =>
        if Enumerates(order, s.store, user, p => InTree(p, from)) && (forall d <- order :: InTree(d.path, from)) {
          MoveIndexesNone(s.store, order, from, to, now);
          SmallTexts(s.store, MoveDocs(s.store, order, from, to, now));
        }
      case Reindex(user, order, prefix, now) =>
        if Enumerates(order, s.store, user, p => MatchesPrefix(p, prefix)) {
          assert Invariant(s) by { hide *; }
          ReindexKeeps(s, order, now);
        }
      case _ =>
    }
  }

  lemma SmallTexts(s: Store, t: Store)
    requires NoneNewlyIndexed(s, t) && forall d <- s.docs.Values :: d.indexed ==> Small(d)
    ensures forall d <- t.docs.Values :: d.indexed ==> Small(d)
  {
    hide Chunking.Pieces, Chunking.SectionCount;
  }

  /** Marking a document indexed keeps its text, which is the worker's. */
  lemma MarkedSmall(D: set<Doc>, E: set<Doc>, copy: Doc)
    requires Small(copy) && MarkedSet(D, E, copy.user, copy.id)
    requires forall d <- D :: (d.indexed ==> Small(d)) && SnapshotFits(copy, d) && (d.id == copy.id ==> d.version == copy.version)
    ensures forall e <- E :: e.indexed ==> Small(e)
  {
    hide Chunking.Pieces, Chunking.SectionCount;
    forall e | e in E && e.indexed ensures Small(e) {
      var d :| d in D && e == Marked(d, copy.user, copy.id);
    }
  }

  lemma PersistSmall(s: System, w: nat)
    requires Invariant(s) && AllSmall(s)
    ensures AllSmall(DoPersist(s, w))
  {
    hide Small, ChunksOf, ReplaceDocumentChunks, JobsOk, Remembered, ChunksOk;
    var task := WorkerAt(s, w).task;
    if task.Upserting? && task.done == |ChunksOf(task.doc)| {
      assert w in s.workers && WorkerOk(s.store.docs.Values, s.store, s.workers[w]);
      var t := DoPersist(s, w);
      PersistStore(s.store, task.doc, task.job, t.store);
      if t.store != s.store {
        MarkedValues(s.store, task.doc.user, task.doc.id);
        MarkedSmall(s.store.docs.Values, t.store.docs.Values, task.doc);
      }
    }
  }

  lemma PurgeRowsSmall(s: System, w: nat)
    requires Invariant(s) && AllSmall(s)
    ensures AllSmall(DoPurgeRows(s, w))
  {
    hide Small;
    var task := WorkerAt(s, w).task;
    if task.Purged? {
      assert w in s.workers && WorkerOk(s.store.docs.Values, s.store, s.workers[w]);
      PurgeStore(s.store, task.job, DoPurgeRows(s, w).store);
    }
  }

  lemma ClearSmall(s: System, w: nat)
    requires AllSmall(s)
    ensures AllSmall(DoClear(s, w))
  {
    hide Chunking.Pieces, Chunking.SectionCount, PointsOf;
  }

  lemma OtherSmall(s: System, e: Event)
    requires AllSmall(s) && (e.Claim? || e.Take? || e.Load? || e.Upsert? || e.Purge? || e.Complete? || e.Fail? || e.Crash?)
    ensures AllSmall(Step(s, e))
  {
    hide Small, ClaimUpTo, ChunksOf, Batch, BatchEnd, PointsOf, PartialEffect, BumpAll, FailedRows;
  }

  lemma StepSmall(s: System, e: Event)
    requires Invariant(s) && AllSmall(s)
    ensures AllSmall(Step(s, e))
  {
    hide Invariant, AllSmall, DoPersist, DoPurgeRows, DoClear;
    match e
    case Persist(w) => PersistSmall(s, w);
    case PurgeRows(w) => PurgeRowsSmall(s, w);
    case Clear(w) => ClearSmall(s, w);
    case Write(_, _, _, _, _, _) => StoreEventSmall(s, e);
    case Remove(_, _, _, _) => StoreEventSmall(s, e);
    case Move(_, _, _, _, _) => StoreEventSmall(s, e);
    case Reindex(_, _, _, _) => StoreEventSmall(s, e);
    case Retry(_, _) => StoreEventSmall(s, e);
    case _ => OtherSmall(s, e);
  }

  lemma {:induction false} RunSmall(es: seq<Event>)
    ensures AllSmall(Run(es))
  {
    if es != [] {
      RunSmall(es[..|es| - 1]);
      RunKeeps(es[..|es| - 1]);
      StepSmall(Run(es[..|es| - 1]), es[|es| - 1]);
    }
  }

  /** In every run, with any number of workers: no document over one of the three limits is ever indexed. */
  lemma IndexedDocumentsAreSmall(es: seq<Event>, d: Doc)
    requires d in Run(es).store.docs.Values && d.indexed
    ensures |d.text| <= 250_000 && Chunking.SectionCount(d.text) <= 400 && |Chunking.Pieces(d.text)| <= 256
  {
    RunSmall(es);
  }

  /** A document within the limits, and no other one, gets past them: its old points are deleted and its chunks are upserted. */
  lemma SmallDocumentsGoOn(s: System, w: nat)
    requires WorkerAt(s, w).task.Clearing?
    ensures var d, t := WorkerAt(s, w).task.doc, Step(s, Clear(w));
      if |d.text| <= 250_000 && Chunking.SectionCount(d.text) <= 400 && |Chunking.Pieces(d.text)| <= 256 then
        WorkerAt(t, w).task == Upserting(WorkerAt(s, w).task.job, d, 0) && PointsOf(t.points, d.user, d.id) == {}
      else t == s
  {
    hide Chunking.Pieces, Chunking.SectionCount;
  }

  /** The next points of a document: at most eight, in order, up to its last chunk. */
  function NextPoints(d: Doc, done: nat): set<PointId>
    requires done <= |Chunking.Pieces(d.text)|
  {
    var n := |Chunking.Pieces(d.text)|;
    set i | done <= i < (if done + 8 < n then done + 8 else n) :: PointId(d.user, d.id, d.version, i)
  }

  lemma BatchIs(d: Doc, done: nat)
    requires done < |Chunking.Pieces(d.text)| && done % 8 == 0
    ensures done < |ChunksOf(d)| && Batch(d, done) == NextPoints(d, done)
    ensures BatchEnd(done, |ChunksOf(d)|) == if done + 8 < |Chunking.Pieces(d.text)| then done + 8 else |Chunking.Pieces(d.text)|
  {
    hide Chunking.Pieces;
    var chunks, end := ChunksOf(d), BatchEnd(done, |ChunksOf(d)|);
    assert end == if done + 8 < |chunks| then done + 8 else |chunks|;
    forall p | p in NextPoints(d, done) ensures p in Batch(d, done) {
      assert chunks[done..end][p.index - done].point == p;
    }
  }

  /** Between upserts a worker stands at a multiple of eight, or at the end. */
  ghost predicate ByEight(s: System) {
    forall w <- s.workers :: s.workers[w].task.Upserting? ==>
      s.workers[w].task.done % 8 == 0 || s.workers[w].task.done == |Chunking.Pieces(s.workers[w].task.doc.text)|
  }

  lemma BatchByEight(d: Doc, done: nat)
    requires done < |ChunksOf(d)| && (done % 8 == 0 || done == |Chunking.Pieces(d.text)|)
    ensures BatchEnd(done, |ChunksOf(d)|) % 8 == 0 || BatchEnd(done, |ChunksOf(d)|) == |Chunking.Pieces(d.text)|
  {
    hide Chunking.Pieces, BatchEnd, Batch, NextPoints;
    assert |ChunksOf(d)| == |Chunking.Pieces(d.text)|;
    BatchIs(d, done);
    NextMultiple(done);
  }

  lemma NextMultiple(n: nat)
    requires n % 8 == 0
    ensures (n + 8) % 8 == 0
  {}

  lemma StoreByEight(s: System, e: Event)
    requires ByEight(s) && (e.Write? || e.Remove? || e.Move? || e.Reindex? || e.Retry?)
    ensures ByEight(Step(s, e))
  {
    hide Chunking.Pieces, MoveDocs, PushJobs, WriteMarkdown, DeleteMarkdownPath, Enumerates, RetryApplies, RetryRagIndexJob, Forget;
  }

  lemma WorkerByEight(s: System, e: Event)
    requires ByEight(s) && !(e.Write? || e.Remove? || e.Move? || e.Reindex? || e.Retry?)
    ensures ByEight(Step(s, e))
  {
    if e.Upsert? {
      var t := WorkerAt(s, e.w).task;
      if t.Upserting? && t.done < |ChunksOf(t.doc)| { BatchByEight(t.doc, t.done); }
    }
    hide Chunking.Pieces, ChunksOf, Batch, BatchEnd, PointsOf, TooLarge, ClaimUpTo, PartialEffect, ReplaceDocumentChunks, FailedRows,
      BumpAll, Bump, SetStatus, SourceIsCurrent, Lookup, Held, Ids;
  }

  lemma StepByEight(s: System, e: Event)
    requires ByEight(s)
    ensures ByEight(Step(s, e))
  {
    hide Step, ByEight;
    if e.Write? || e.Remove? || e.Move? || e.Reindex? || e.Retry? { StoreByEight(s, e); } else { WorkerByEight(s, e); }
  }

  lemma {:induction false} RunByEight(es: seq<Event>)
    ensures ByEight(Run(es))
  {
    hide Step;
    if es != [] {
      RunByEight(es[..|es| - 1]);
      StepByEight(Run(es[..|es| - 1]), es[|es| - 1]);
    }
  }

  /** Each upsert is of the next eight chunks, or of those that are left; one that fails may have stored any part of them. */
  lemma UpsertsByEight(es: seq<Event>, w: nat, retryable: bool, effect: set<PointId>, retryAt: int)
    requires var t := WorkerAt(Run(es), w).task; t.Upserting? && t.done < |Chunking.Pieces(t.doc.text)|
    ensures var s := Run(es);
      var t, n := WorkerAt(s, w).task, |Chunking.Pieces(WorkerAt(s, w).task.doc.text)|;
      && t.done % 8 == 0
      && Step(s, Upsert(w)).points == s.points + NextPoints(t.doc, t.done)
      && WorkerAt(Step(s, Upsert(w)), w).task == t.(done := if t.done + 8 < n then t.done + 8 else n)
      && Step(s, Fail(w, retryable, effect, retryAt)).points == s.points + (NextPoints(t.doc, t.done) * effect)
      && Step(s, Crash(w, effect)).points == s.points + (NextPoints(t.doc, t.done) * effect)
  {
    RunByEight(es);
    hide Run, Step, Chunking.Pieces, NextPoints;
    UpsertByEight(Run(es), w, retryable, effect, retryAt);
  }

  lemma UpsertByEight(s: System, w: nat, retryable: bool, effect: set<PointId>, retryAt: int)
    requires var t := WorkerAt(s, w).task; t.Upserting? && t.done < |Chunking.Pieces(t.doc.text)| && t.done % 8 == 0
    ensures var t, n := WorkerAt(s, w).task, |Chunking.Pieces(WorkerAt(s, w).task.doc.text)|;
      && Step(s, Upsert(w)).points == s.points + NextPoints(t.doc, t.done)
      && WorkerAt(Step(s, Upsert(w)), w).task == t.(done := if t.done + 8 < n then t.done + 8 else n)
      && Step(s, Fail(w, retryable, effect, retryAt)).points == s.points + (NextPoints(t.doc, t.done) * effect)
      && Step(s, Crash(w, effect)).points == s.points + (NextPoints(t.doc, t.done) * effect)
  {
    var t := WorkerAt(s, w).task;
    BatchIs(t.doc, t.done);
    UpsertAdds(s, w);
    PartOfBatch(s, w, retryable, effect, retryAt);
    hide *;
  }

  lemma UpsertAdds(s: System, w: nat)
    requires var t := WorkerAt(s, w).task; t.Upserting? && t.done < |ChunksOf(t.doc)|
    ensures var t := WorkerAt(s, w).task;
      && Step(s, Upsert(w)).points == s.points + Batch(t.doc, t.done)
      && WorkerAt(Step(s, Upsert(w)), w).task == t.(done := BatchEnd(t.done, |ChunksOf(t.doc)|))
  {
    hide ChunksOf, Batch, BatchEnd;
  }

  lemma PartOfBatch(s: System, w: nat, retryable: bool, effect: set<PointId>, retryAt: int)
    requires var t := WorkerAt(s, w).task; t.Upserting? && t.done <= |ChunksOf(t.doc)|
    ensures var t := WorkerAt(s, w).task;
      && Step(s, Fail(w, retryable, effect, retryAt)).points == s.points + (Batch(t.doc, t.done) * effect)
      && Step(s, Crash(w, effect)).points == s.points + (Batch(t.doc, t.done) * effect)
  {
    hide ChunksOf, Batch, FailedRows, BumpAll, Bump, Ids, Held;
  }

  // ----- claims -----

  /** Pending and due, or claimed more than five minutes ago. */
  predicate Due(j: Job, now: int) {
    || (j.status == Pending && j.availableAt <= now)
    || (j.status == Claimed && j.startedAt != None && now - j.startedAt.value > 300_000)
  }

  function DueBefore(jobs: seq<Job>, n: nat, now: int): nat
    requires n <= |jobs|
  {
    if n == 0 then 0 else DueBefore(jobs, n - 1, now) + if Due(jobs[n - 1], now) then 1 else 0
  }

  lemma {:induction false} ClaimCounts(jobs: seq<Job>, n: nat, limit: nat, now: int, at: int)
    requires n <= |jobs|
    ensures |ClaimUpTo(jobs, n, limit, now, at).1| == if DueBefore(jobs, n, now) < limit then DueBefore(jobs, n, now) else limit
  {
    if n > 0 { ClaimCounts(jobs, n - 1, limit, now, at); }
  }

  /** The row as a claim leaves it. */
  predicate TakenAt(row: Job, j: Job, at: int) {
    row == Job(j.id, j.user, j.doc, j.version, j.hash, j.kind, Claimed, j.attempts + 1, j.availableAt, Some(at))
  }

  /** Row `i` is handed out in its place exactly when it is due and fewer than `limit` due rows come before it. */
  predicate HandedOut(jobs: seq<Job>, rows: seq<Job>, queue: seq<Job>, i: nat, limit: nat, now: int, at: int)
    requires i < |jobs| == |rows|
  {
    if Due(jobs[i], now) && DueBefore(jobs, i, now) < limit then
      TakenAt(rows[i], jobs[i], at) && DueBefore(jobs, i, now) < |queue| && queue[DueBefore(jobs, i, now)] == rows[i]
    else rows[i] == jobs[i]
  }

  lemma ClaimStep(jobs: seq<Job>, n: nat, limit: nat, now: int, at: int)
    requires 0 < n <= |jobs|
    ensures var (rows, claimed) := ClaimUpTo(jobs, n - 1, limit, now, at); var (rows', claimed') := ClaimUpTo(jobs, n, limit, now, at);
      && |rows| == |rows'| == |jobs|
      && (forall i :: 0 <= i < |jobs| && i != n - 1 ==> rows'[i] == rows[i])
      && claimed <= claimed'
  {}

  lemma {:induction false} Unscanned(jobs: seq<Job>, n: nat, limit: nat, now: int, at: int, i: nat)
    requires n <= i < |jobs|
    ensures ClaimUpTo(jobs, n, limit, now, at).0[i] == jobs[i]
  {
    if n > 0 { Unscanned(jobs, n - 1, limit, now, at, i); }
  }

  lemma {:induction false} ClaimTakes(jobs: seq<Job>, n: nat, limit: nat, now: int, at: int, i: nat)
    requires i < n <= |jobs|
    ensures HandedOut(jobs, ClaimUpTo(jobs, n, limit, now, at).0, ClaimUpTo(jobs, n, limit, now, at).1, i, limit, now, at)
  {
    if i < n - 1 {
      ClaimTakes(jobs, n - 1, limit, now, at, i);
      ClaimStep(jobs, n, limit, now, at);
      hide ClaimUpTo, Due, DueBefore, TakenAt;
    } else {
      ClaimCounts(jobs, i, limit, now, at);
      Unscanned(jobs, i, limit, now, at, i);
      hide DueBefore;
    }
  }

  /** An idle worker is handed exactly the first `limit` due rows, oldest first; no other row changes. */
  lemma ClaimHandsOutTheFirstDue(s: System, w: nat, limit: nat, now: int, at: int)
    requires WorkerAt(s, w).queue == [] && WorkerAt(s, w).task == Idle
    ensures var jobs, t := s.store.jobs, Step(s, Claim(w, limit, now, at)); var queue := WorkerAt(t, w).queue;
      && t.store.docs == s.store.docs && |t.store.jobs| == |jobs|
      && |queue| == (if DueBefore(jobs, |jobs|, now) < limit then DueBefore(jobs, |jobs|, now) else limit)
      && (forall i: nat :: i < |jobs| ==> HandedOut(jobs, t.store.jobs, queue, i, limit, now, at))
  {
    var jobs := s.store.jobs;
    ClaimCounts(jobs, |jobs|, limit, now, at);
    forall i: nat | i < |jobs|
      ensures HandedOut(jobs, ClaimUpTo(jobs, |jobs|, limit, now, at).0, ClaimUpTo(jobs, |jobs|, limit, now, at).1, i, limit, now, at)
    {
      ClaimTakes(jobs, |jobs|, limit, now, at, i);
    }
    hide ClaimUpTo, DueBefore, HandedOut;
  }

  // ----- retries -----

  /** Another row asks for the same version of the same document and is pending or at work. */
  ghost predicate AlreadyQueued(jobs: seq<Job>, j: Job) {
    exists o <- jobs :: o.id != j.id && (o.status == Pending || o.status == Claimed)
      && o.user == j.user && o.doc == j.doc && o.version == j.version && o.hash == j.hash && o.kind == j.kind
  }

  /** A manual retry requeues a failed or dead row with a clean count, unless the same work is queued already; it changes nothing else. */
  lemma RetryRequeuesIff(s: System, id: nat, now: int)
    requires forall i :: 0 <= i < |s.store.jobs| ==> s.store.jobs[i].id == i
    ensures var jobs, t := s.store.jobs, Step(s, Retry(id, now));
      if id < |jobs| && (jobs[id].status == Failed || jobs[id].status == Dead) && !AlreadyQueued(jobs, jobs[id]) then
        t.store == s.store.(jobs := jobs[id := Job(id, jobs[id].user, jobs[id].doc, jobs[id].version, jobs[id].hash, jobs[id].kind, Pending, 0, now, None)])
      else t == s
  {
    var jobs := s.store.jobs;
    if id < |jobs| {
      assert HasActiveTwin(jobs, id) <==> AlreadyQueued(jobs, jobs[id]) by {
        if HasActiveTwin(jobs, id) {
          var i :| 0 <= i < |jobs| && i != id && SameRequest(jobs[i], jobs[id]) && (jobs[i].status == Pending || jobs[i].status == Claimed);
          assert jobs[i] in jobs;
        }
        if AlreadyQueued(jobs, jobs[id]) {
          var o :| o in jobs && o.id != id && (o.status == Pending || o.status == Claimed) && SameRequest(o, jobs[id]);
          var i :| 0 <= i < |jobs| && jobs[i] == o;
        }
      }
    }
  }

  /** A turn that throws leaves its row pending at the retry time on its first and second attempt, and dead otherwise. */
  lemma FailureRequeuesOrBuries(s: System, w: nat, retryable: bool, effect: set<PointId>, retryAt: int)
    requires Invariant(s) && !WorkerAt(s, w).task.Idle?
    ensures var j := WorkerAt(s, w).task.job; var jobs, later := s.store.jobs, Step(s, Fail(w, retryable, effect, retryAt)).store.jobs;
      && j.id < |jobs| == |later|
      && (forall i :: 0 <= i < |jobs| && i != j.id ==> later[i] == jobs[i])
      && (retryable && j.attempts < 3 ==> later[j.id] == jobs[j.id].(status := Pending, availableAt := retryAt))
      && (!retryable || j.attempts >= 3 ==> later[j.id] == jobs[j.id].(status := Dead))
  {
    assert w in s.workers && WorkerOk(s.store.docs.Values, s.store, s.workers[w]);
    hide PartialEffect, Invariant, WorkerOk;
  }
}
