/**
 With one worker process, the vector index agrees with the text.

 The argument follows the points of a document through a job: cleared, upserted batch by batch, and
 known to be complete when the guarded write succeeds.  While that goes on the job's row is not
 completed, so no one is told the index is right before it is.
 */
module RagSingleWorker {
  import opened Wrappers
  import opened RagStore
  import Chunking
  import opened RagWorker
  import opened RagInvariants
  import opened RagRuns

  predicate ByWorkerZero(e: Event) {
    match e
    case Write(_, _, _, _, _, _) => true
    case Remove(_, _, _, _) => true
    case Move(_, _, _, _, _) => true
    case Reindex(_, _, _, _) => true
    case Retry(_, _) => true
    case _ => e.w == 0
  }

  ghost predicate OneWorker(es: seq<Event>) {
    forall e <- es :: ByWorkerZero(e)
  }

  predicate PointsRight(points: set<PointId>, d: Doc) {
    PointsOf(points, d.user, d.id) == PointIds(ChunksOf(d))
  }

  ghost predicate AllCompleted(jobs: seq<Job>, d: Doc) {
    forall i :: 0 <= i < |jobs| && JobFor(jobs[i], d) ==> jobs[i].status == Completed
  }

  /** The worker's copies of rows: still claimed, at the same attempt, no row twice. */
  ghost predicate HeldOk(jobs: seq<Job>, held: seq<Job>) {
    && (forall j <- held :: j.id < |jobs| && jobs[j.id].status == Claimed && jobs[j.id].attempts == j.attempts)
    && (forall a, b :: 0 <= a < b < |held| ==> held[a].id != held[b].id)
  }

  /** While a version is being indexed, a later version of the document is not indexed yet. */
  ghost predicate LaterPending(D: set<Doc>, copy: Doc) {
    forall d <- D :: d.id == copy.id && d.version > copy.version ==> !d.indexed
  }

  ghost predicate TaskPoints(D: set<Doc>, points: set<PointId>, t: Task) {
    && (t.Clearing? ==> LaterPending(D, t.doc))
    && (t.Upserting? ==>
         && LaterPending(D, t.doc) && t.done <= |ChunksOf(t.doc)|
         && PointsOf(points, t.doc.user, t.doc.id) == PointIds(ChunksOf(t.doc)[..t.done]))
    && (t.Done? ==> forall d <- D :: JobFor(t.job, d) && d.indexed ==> PointsRight(points, d))
  }

  ghost predicate IndexRight(D: set<Doc>, jobs: seq<Job>, points: set<PointId>) {
    forall d <- D :: d.indexed && AllCompleted(jobs, d) ==> PointsRight(points, d)
  }

  ghost predicate Single(s: System) {
    && s.workers.Keys <= {0}
    && HeldOk(s.store.jobs, Held(WorkerAt(s, 0)))
    && TaskPoints(s.store.docs.Values, s.points, WorkerAt(s, 0).task)
    && IndexRight(s.store.docs.Values, s.store.jobs, s.points)
  }

  // ----- store operations -----

  /** No row became completed, and the rows the worker holds are untouched. */
  ghost predicate RowsQuiet(jobs: seq<Job>, later: seq<Job>) {
    && RowsKept(jobs, later)
    && (forall i :: 0 <= i < |jobs| ==> later[i].status == Completed ==> jobs[i].status == Completed)
  }

  ghost predicate RowsHeld(jobs: seq<Job>, later: seq<Job>) {
    forall i :: 0 <= i < |jobs| && jobs[i].status == Claimed ==> i < |later| && later[i] == jobs[i]
  }

  ghost predicate OldOrPending(D: set<Doc>, E: set<Doc>) {
    forall e <- E :: e in D || !e.indexed
  }

  lemma StillCompleted(jobs: seq<Job>, later: seq<Job>, d: Doc)
    requires RowsQuiet(jobs, later) && AllCompleted(later, d)
    ensures AllCompleted(jobs, d)
  {
    forall i | 0 <= i < |jobs| && JobFor(jobs[i], d) ensures jobs[i].status == Completed {
      assert JobFor(later[i], d);
    }
  }

  lemma QuietStep(s: System, t: System)
    requires Single(s) && t.points == s.points && t.workers == s.workers
    requires OldOrPending(s.store.docs.Values, t.store.docs.Values)
    requires RowsQuiet(s.store.jobs, t.store.jobs) && RowsHeld(s.store.jobs, t.store.jobs)
    ensures Single(t)
  {
    forall d | d in t.store.docs.Values && d.indexed && AllCompleted(t.store.jobs, d)
      ensures PointsRight(t.points, d)
    {
      StillCompleted(s.store.jobs, t.store.jobs, d);
    }
  }

  lemma WriteQuiet(s: Store, user: UserId, path: Path, text: Text, hash: Hash, expected: Option<nat>, now: int)
    ensures var t := WriteMarkdown(s, user, path, text, hash, expected, now).0;
      OldOrPending(s.docs.Values, t.docs.Values) && RowsQuiet(s.jobs, t.jobs) && RowsHeld(s.jobs, t.jobs)
  {
    var t := WriteMarkdown(s, user, path, text, hash, expected, now).0;
    forall e | e in t.docs.Values ensures e in s.docs.Values || !e.indexed {
      var k :| k in t.docs && t.docs[k] == e;
      if k in s.docs { assert s.docs[k] in s.docs.Values; }
    }
  }

  lemma RemoveQuiet(s: Store, user: UserId, path: Path, expected: Option<nat>, now: int)
    ensures var t := DeleteMarkdownPath(s, user, path, expected, now).0;
      OldOrPending(s.docs.Values, t.docs.Values) && RowsQuiet(s.jobs, t.jobs) && RowsHeld(s.jobs, t.jobs)
  {
    var t := DeleteMarkdownPath(s, user, path, expected, now).0;
    forall e | e in t.docs.Values ensures e in s.docs.Values {
      var k :| k in t.docs && t.docs[k] == e;
      assert k in s.docs && s.docs[k] == e;
    }
  }

  lemma {:induction false} MoveQuiet(s: Store, order: seq<Doc>, from: Path, to: Path, now: int)
    requires forall d <- order :: InTree(d.path, from)
    ensures var t := MoveDocs(s, order, from, to, now);
      OldOrPending(s.docs.Values, t.docs.Values) && RowsQuiet(s.jobs, t.jobs) && RowsHeld(s.jobs, t.jobs)
  {
    if order != [] {
      var rest, d := order[..|order| - 1], order[|order| - 1];
      MoveQuiet(s, rest, from, to, now);
      var mid, t := MoveDocs(s, rest, from, to, now), MoveDocs(s, order, from, to, now);
      assert t == MoveOne(mid, d, from, to, now);
      forall e | e in t.docs.Values ensures e in s.docs.Values || !e.indexed {
        var k :| k in t.docs && t.docs[k] == e;
        if e != MovedDoc(d, from, to) { assert mid.docs[k] in mid.docs.Values; }
      }
    }
  }

  lemma {:induction false} ReindexQuiet(s: Store, order: seq<Doc>, now: int)
    ensures var t := PushJobs(s, order, now);
      t.docs == s.docs && RowsQuiet(s.jobs, t.jobs) && RowsHeld(s.jobs, t.jobs)
  {
    if order != [] { ReindexQuiet(s, order[..|order| - 1], now); }
  }

  lemma RetryQuiet(jobs: seq<Job>, id: nat, now: int)
    ensures RowsQuiet(jobs, RetryRagIndexJob(jobs, id, now)) && RowsHeld(jobs, RetryRagIndexJob(jobs, id, now))
  {}

  lemma DocEventSingle(s: System, e: Event)
    requires Single(s) && (e.Write? || e.Remove?)
    ensures Single(Step(s, e))
  {
    if e.Write? {
      WriteQuiet(s.store, e.user, e.path, e.text, e.hash, e.expected, e.now);
    } else {
      RemoveQuiet(s.store, e.user, e.path, e.expected, e.now);
    }
    QuietStep(s, Step(s, e));
  }

  lemma SameQuiet(s: Store)
    ensures OldOrPending(s.docs.Values, s.docs.Values) && RowsQuiet(s.jobs, s.jobs) && RowsHeld(s.jobs, s.jobs)
  {}

  lemma ListEventSingle(s: System, e: Event)
    requires Single(s) && (e.Move? || e.Reindex? || e.Retry?)
    ensures Single(Step(s, e))
  {
    hide Single, OldOrPending, RowsQuiet, RowsHeld, MoveDocs, PushJobs, RetryRagIndexJob, Enumerates, RetryApplies;
    SameQuiet(s.store);
    match e {
      case Move(user, order, from, to, now) =>
        if forall d <- order :: InTree(d.path, from) { MoveQuiet(s.store, order, from, to, now); }
      case Reindex(user, order, prefix, now) => ReindexQuiet(s.store, order, now);
      case Retry(id, now) => RetryQuiet(s.store.jobs, id, now);
    }
    QuietStep(s, Step(s, e));
  }

  // ----- the worker's steps -----

  /** The document whose points a task changes: nothing that is known to be right is about it. */
  lemma BusyDoc(s: System, job: Job, copy: Doc)
    requires Invariant(s) && SnapshotOk(s.store.docs.Values, s.store, job, copy) && LaterPending(s.store.docs.Values, copy)
    requires CopyOk(job, s.store.jobs) && s.store.jobs[job.id].status == Claimed
    ensures forall d <- s.store.docs.Values :: d.indexed && AllCompleted(s.store.jobs, d) ==> d.id != copy.id
  {
    forall d | d in s.store.docs.Values && d.indexed && d.id == copy.id
      ensures !AllCompleted(s.store.jobs, d)
    {
      assert SnapshotFits(copy, d);
      assert JobFor(s.store.jobs[job.id], d);
    }
  }

  lemma OtherPoints(points: set<PointId>, later: set<PointId>, doc: nat, d: Doc)
    requires forall p: PointId :: p.doc != doc ==> (p in points <==> p in later)
    requires d.id != doc
    ensures PointsOf(points, d.user, d.id) == PointsOf(later, d.user, d.id)
  {}

  /** The points of one busy document change; the rows and the documents do not. */
  lemma PointStep(s: System, t: System, copy: Doc)
    requires Single(s) && t.store == s.store && t.workers.Keys <= {0}
    requires forall p: PointId :: p.doc != copy.id ==> (p in s.points <==> p in t.points)
    requires forall d <- s.store.docs.Values :: d.indexed && AllCompleted(s.store.jobs, d) ==> d.id != copy.id
    requires HeldOk(t.store.jobs, Held(WorkerAt(t, 0)))
    requires TaskPoints(t.store.docs.Values, t.points, WorkerAt(t, 0).task)
    ensures Single(t)
  {
    forall d | d in t.store.docs.Values && d.indexed && AllCompleted(t.store.jobs, d)
      ensures PointsRight(t.points, d)
    {
      OtherPoints(s.points, t.points, copy.id, d);
    }
  }

  lemma HeldTask(s: System)
    requires Invariant(s) && Single(s) && !WorkerAt(s, 0).task.Idle?
    ensures TaskOk(s.store.docs.Values, s.store, WorkerAt(s, 0).task)
    ensures var job := WorkerAt(s, 0).task.job;
      job.id < |s.store.jobs| && s.store.jobs[job.id].status == Claimed && s.store.jobs[job.id].attempts == job.attempts
  {
    var me := WorkerAt(s, 0);
    assert 0 in s.workers && WorkerOk(s.store.docs.Values, s.store, s.workers[0]);
    assert Held(me)[0] in Held(me);
  }

  lemma BatchPoints(d: Doc, done: nat)
    requires done <= |ChunksOf(d)|
    ensures PointIds(ChunksOf(d)[..done]) + Batch(d, done) == PointIds(ChunksOf(d)[..BatchEnd(done, |ChunksOf(d)|)])
    ensures forall p <- PointIds(ChunksOf(d)) :: p.user == d.user && p.doc == d.id
    ensures forall p <- Batch(d, done) :: p.user == d.user && p.doc == d.id
  {
    hide Chunking.Pieces, Chunking.SectionCount;
    var end := BatchEnd(done, |ChunksOf(d)|);
    assert ChunksOf(d)[..end] == ChunksOf(d)[..done] + ChunksOf(d)[done..end];
  }

  lemma ClearSingle(s: System)
    requires Invariant(s) && Single(s)
    ensures Single(DoClear(s, 0))
  {
    var task := WorkerAt(s, 0).task;
    if task.Clearing? && !TooLarge(task.doc) {
      HeldTask(s);
      BusyDoc(s, task.job, task.doc);
      var t := DoClear(s, 0);
      assert PointsOf(t.points, task.doc.user, task.doc.id) == PointIds(ChunksOf(task.doc)[..0]);
      PointStep(s, t, task.doc);
    }
  }

  lemma UpsertSingle(s: System)
    requires Invariant(s) && Single(s)
    ensures Single(DoUpsert(s, 0))
  {
    hide Chunking.Pieces, Chunking.SectionCount;
    var task := WorkerAt(s, 0).task;
    if task.Upserting? && task.done < |ChunksOf(task.doc)| {
      HeldTask(s);
      BusyDoc(s, task.job, task.doc);
      BatchPoints(task.doc, task.done);
      var t := DoUpsert(s, 0);
      assert PointsOf(t.points, task.doc.user, task.doc.id)
        == PointsOf(s.points, task.doc.user, task.doc.id) + Batch(task.doc, task.done);
      PointStep(s, t, task.doc);
    }
  }

  /** A deletion job changes only points of a document that is gone. */
  lemma DeadDoc(s: System, job: Job)
    requires Invariant(s) && CopyOk(job, s.store.jobs) && job.kind.DeleteMarkdown?
    ensures forall d <- s.store.docs.Values :: d.id != job.doc
  {
    forall d | d in s.store.docs.Values ensures d.id != job.doc {
      assert s.store.jobs[job.id].doc == d.id ==> RowFits(s.store.jobs[job.id], d);
    }
  }

  lemma PurgeSingle(s: System)
    requires Invariant(s) && Single(s)
    ensures Single(DoPurge(s, 0))
  {
    var task := WorkerAt(s, 0).task;
    if task.Ready? && task.job.kind.DeleteMarkdown? {
      HeldTask(s);
      DeadDoc(s, task.job);
      var t := DoPurge(s, 0);
      forall d | d in t.store.docs.Values && d.indexed && AllCompleted(t.store.jobs, d) ensures PointsRight(t.points, d) {
        OtherPoints(s.points, t.points, task.job.doc, d);
      }
      assert Held(WorkerAt(t, 0)) == Held(WorkerAt(s, 0));
    }
  }

  lemma PurgeRowsSingle(s: System)
    requires Invariant(s) && Single(s)
    ensures Single(DoPurgeRows(s, 0))
  {
    var task := WorkerAt(s, 0).task;
    if task.Purged? {
      HeldTask(s);
      var t := DoPurgeRows(s, 0);
      PurgeStore(s.store, task.job, t.store);
      assert Held(WorkerAt(t, 0)) == Held(WorkerAt(s, 0));
      assert HeldOk(t.store.jobs, Held(WorkerAt(t, 0)));
    }
  }

  /** Loading the source: it is the live document, or no live document waits for this job. */
  lemma LoadSingle(s: System)
    requires Invariant(s) && Single(s)
    ensures Single(DoLoad(s, 0))
  {
    var task := WorkerAt(s, 0).task;
    if task.Ready? && task.job.kind.IndexMarkdown? {
      HeldTask(s);
      var t, D := DoLoad(s, 0), s.store.docs.Values;
      assert Held(WorkerAt(t, 0)) == Held(WorkerAt(s, 0));
      if !SourceIsCurrent(s.store, task.job) {
        forall d | d in D ensures !JobFor(task.job, d) {
          if JobFor(task.job, d) { StaleSource(s.store, task.job, d); }
        }
      }
      assert t.store == s.store && t.points == s.points;
    }
  }

  /** The guarded write: when it succeeds the points are those of the text it was given. */
  lemma PersistSingle(s: System)
    requires Invariant(s) && Single(s)
    ensures Single(DoPersist(s, 0))
  {
    hide Chunking.Pieces, Chunking.SectionCount, ReplaceDocumentChunks, AllFollow, Remembered, ChunksOk;
    var task := WorkerAt(s, 0).task;
    if task.Upserting? && task.done == |ChunksOf(task.doc)| {
      HeldTask(s);
      var t, copy := DoPersist(s, 0), task.doc;
      BusyDoc(s, task.job, copy);
      PersistStore(s.store, copy, task.job, t.store);
      assert Held(WorkerAt(t, 0)) == Held(WorkerAt(s, 0));
      assert ChunksOf(copy)[..task.done] == ChunksOf(copy);
      forall e | e in t.store.docs.Values && e.indexed
        ensures JobFor(task.job, e) ==> PointsRight(t.points, e)
        ensures AllCompleted(t.store.jobs, e) ==> PointsRight(t.points, e)
      {
        PersistedPoints(s, t.store, task.job, copy, e);
      }
    }
  }

  /** An indexed document after the guarded write: indexed before, or the one just written. */
  lemma PersistedPoints(s: System, t: Store, job: Job, copy: Doc, e: Doc)
    requires Invariant(s) && Single(s) && SnapshotOk(s.store.docs.Values, s.store, job, copy)
    requires CopyOk(job, s.store.jobs) && s.store.jobs[job.id].status == Claimed
    requires LaterPending(s.store.docs.Values, copy)
    requires PointsOf(s.points, copy.user, copy.id) == PointIds(ChunksOf(copy))
    requires t == s.store || t == Indexed(s.store, copy.user, copy.id, ChunksOf(copy))
    requires t == s.store || forall d <- s.store.docs.Values :: d.id == copy.id ==> d.version == copy.version
    requires forall d <- t.docs.Values :: JobFor(job, d) ==> d.indexed
    requires e in t.docs.Values && e.indexed
    ensures JobFor(job, e) ==> PointsRight(s.points, e)
    ensures AllCompleted(t.jobs, e) ==> PointsRight(s.points, e)
  {
    var d := e;
    if t != s.store {
      MarkedValues(s.store, copy.user, copy.id);
      var c :| c in s.store.docs.Values && e == Marked(c, copy.user, copy.id);
      d := c;
    }
    assert SnapshotFits(copy, d);
    SameChunks(d, e);
    if d.id == copy.id && d.version == copy.version { SameChunks(copy, d); }
    if AllCompleted(t.jobs, e) && d.indexed { assert AllCompleted(s.store.jobs, d); }
  }

  /** The claimed copies are the claimed rows, oldest first. */
  lemma {:induction false} ClaimedCopies(jobs: seq<Job>, n: nat, limit: nat, now: int, at: int)
    requires n <= |jobs| && forall i :: 0 <= i < |jobs| ==> jobs[i].id == i
    ensures var (rows, claimed) := ClaimUpTo(jobs, n, limit, now, at);
      && (forall j <- claimed :: j.id < n && rows[j.id] == j && j.status == Claimed)
      && (forall a, b :: 0 <= a < b < |claimed| ==> claimed[a].id < claimed[b].id)
  {
    if n > 0 { ClaimedCopies(jobs, n - 1, limit, now, at); }
  }

  lemma ClaimSingle(s: System, limit: nat, now: int, at: int)
    requires Invariant(s) && Single(s)
    ensures Single(DoClaim(s, 0, limit, now, at))
  {
    var me, jobs := WorkerAt(s, 0), s.store.jobs;
    if me.queue == [] && me.task == Idle {
      var t := DoClaim(s, 0, limit, now, at);
      ClaimChanges(jobs, |jobs|, limit, now, at);
      ClaimedCopies(jobs, |jobs|, limit, now, at);
      assert Held(WorkerAt(t, 0)) == ClaimUpTo(jobs, |jobs|, limit, now, at).1;
      assert RowsQuiet(jobs, t.store.jobs);
      forall d | d in t.store.docs.Values && d.indexed && AllCompleted(t.store.jobs, d) ensures PointsRight(t.points, d) {
        StillCompleted(jobs, t.store.jobs, d);
      }
    }
  }

  /** Releasing a row: it leaves the claimed ones, and the rest of the batch is as it was. */
  lemma ReleaseRow(jobs: seq<Job>, later: seq<Job>, held: seq<Job>)
    requires HeldOk(jobs, held) && held != []
    requires |later| == |jobs| && forall i :: 0 <= i < |jobs| && i != held[0].id ==> later[i] == jobs[i]
    ensures HeldOk(later, held[1..])
  {
    forall j | j in held[1..] ensures j.id < |later| && later[j.id].status == Claimed && later[j.id].attempts == j.attempts {
      var a :| 1 <= a < |held| && held[a] == j;
    }
  }

  lemma TakeSingle(s: System)
    requires Invariant(s) && Single(s)
    ensures Single(DoTake(s, 0))
  {
    var me, jobs := WorkerAt(s, 0), s.store.jobs;
    if me.queue != [] && me.task == Idle {
      var t := DoTake(s, 0);
      if me.queue[0].attempts > MAX_RAG_JOB_ATTEMPTS {
        ReleaseRow(jobs, t.store.jobs, me.queue);
        assert RowsQuiet(jobs, t.store.jobs);
        forall d | d in t.store.docs.Values && d.indexed && AllCompleted(t.store.jobs, d) ensures PointsRight(t.points, d) {
          StillCompleted(jobs, t.store.jobs, d);
        }
      } else {
        assert Held(WorkerAt(t, 0)) == me.queue;
      }
    }
  }

  lemma CompleteSingle(s: System)
    requires Invariant(s) && Single(s)
    ensures Single(DoComplete(s, 0))
  {
    var me, jobs := WorkerAt(s, 0), s.store.jobs;
    if me.task.Done? {
      HeldTask(s);
      var t, job := DoComplete(s, 0), me.task.job;
      ReleaseRow(jobs, t.store.jobs, Held(me));
      assert Held(WorkerAt(t, 0)) == me.queue == Held(me)[1..];
      forall d | d in t.store.docs.Values && d.indexed && AllCompleted(t.store.jobs, d) ensures PointsRight(t.points, d) {
        if !JobFor(job, d) {
          forall i | 0 <= i < |jobs| && JobFor(jobs[i], d) ensures jobs[i].status == Completed {
            assert JobFor(t.store.jobs[i], d);
          }
        }
      }
    }
  }

  /** A provider call that failed touched at most the points of the document at hand. */
  lemma PartialPoints(s: System, effect: set<PointId>)
    requires Invariant(s) && Single(s)
    ensures forall d <- s.store.docs.Values :: d.indexed && AllCompleted(s.store.jobs, d) ==>
      PointsRight(PartialEffect(s.points, WorkerAt(s, 0).task, effect), d)
  {
    var task := WorkerAt(s, 0).task;
    var points := PartialEffect(s.points, task, effect);
    if points != s.points {
      HeldTask(s);
      var doc := if task.Ready? then task.job.doc else task.doc.id;
      if task.Ready? { DeadDoc(s, task.job); } else { BusyDoc(s, task.job, task.doc); }
      if task.Upserting? { BatchPoints(task.doc, task.done); }
      forall d | d in s.store.docs.Values && d.indexed && AllCompleted(s.store.jobs, d) ensures PointsRight(points, d) {
        OtherPoints(s.points, points, doc, d);
      }
    }
  }

  lemma FailSingle(s: System, retryable: bool, effect: set<PointId>, retryAt: int)
    requires Invariant(s) && Single(s)
    ensures Single(DoFail(s, 0, retryable, effect, retryAt))
  {
    var me, jobs := WorkerAt(s, 0), s.store.jobs;
    if !me.task.Idle? {
      HeldTask(s);
      PartialPoints(s, effect);
      var t := DoFail(s, 0, retryable, effect, retryAt);
      ReleaseRow(jobs, t.store.jobs, Held(me));
      assert Held(WorkerAt(t, 0)) == me.queue == Held(me)[1..];
      assert RowsQuiet(jobs, t.store.jobs);
      forall d | d in t.store.docs.Values && d.indexed && AllCompleted(t.store.jobs, d) ensures PointsRight(t.points, d) {
        StillCompleted(jobs, t.store.jobs, d);
      }
    }
  }

  lemma CrashSingle(s: System, effect: set<PointId>)
    requires Invariant(s) && Single(s)
    ensures Single(DoCrash(s, 0, effect))
  {
    PartialPoints(s, effect);
  }

  // ----- all events -----

  lemma WorkerEventSingle(s: System, e: Event)
    requires Invariant(s) && Single(s) && ByWorkerZero(e)
    requires e.Claim? || e.Take? || e.Load? || e.Complete? || e.Fail? || e.Crash?
    ensures Single(Step(s, e))
  {
    hide Invariant, Single, DoClaim, DoTake, DoLoad, DoComplete, DoFail, DoCrash;
    match e
    case Claim(w, limit, now, at) => ClaimSingle(s, limit, now, at);
    case Take(w) => TakeSingle(s);
    case Load(w) => LoadSingle(s);
    case Complete(w) => CompleteSingle(s);
    case Fail(w, retryable, effect, retryAt) => FailSingle(s, retryable, effect, retryAt);
    case Crash(w, effect) => CrashSingle(s, effect);
  }

  lemma IndexEventSingle(s: System, e: Event)
    requires Invariant(s) && Single(s) && ByWorkerZero(e)
    requires e.Clear? || e.Upsert? || e.Persist? || e.Purge? || e.PurgeRows?
    ensures Single(Step(s, e))
  {
    hide Invariant, Single, DoClear, DoUpsert, DoPersist, DoPurge, DoPurgeRows;
    match e
    case Clear(w) => ClearSingle(s);
    case Upsert(w) => UpsertSingle(s);
    case Persist(w) => PersistSingle(s);
    case Purge(w) => PurgeSingle(s);
    case PurgeRows(w) => PurgeRowsSingle(s);
  }

  lemma StepSingle(s: System, e: Event)
    requires Invariant(s) && Single(s) && ByWorkerZero(e)
    ensures Single(Step(s, e))
  {
    if e.Write? || e.Remove? {
      DocEventSingle(s, e);
    } else if e.Move? || e.Reindex? || e.Retry? {
      ListEventSingle(s, e);
    } else if e.Clear? || e.Upsert? || e.Persist? || e.Purge? || e.PurgeRows? {
      IndexEventSingle(s, e);
    } else {
      WorkerEventSingle(s, e);
    }
  }

  lemma {:induction false} RunSingle(es: seq<Event>)
    requires OneWorker(es)
    ensures Single(Run(es))
  {
    if es != [] {
      RunSingle(es[..|es| - 1]);
      RunKeeps(es[..|es| - 1]);
      StepSingle(Run(es[..|es| - 1]), es[|es| - 1]);
    }
  }

  // ----- what it means -----

  /** Points, rows and text agree for an indexed document whose jobs for its version are completed. */
  lemma IndexAgreesWithText(es: seq<Event>, d: Doc)
    requires OneWorker(es)
    requires var s := Run(es); d in s.store.docs.Values && d.indexed && AllCompleted(s.store.jobs, d)
    ensures var s := Run(es);
      && (d.user, d.id) in s.store.chunks
      && s.store.chunks[(d.user, d.id)] == ChunksOf(d)
      && PointsOf(s.points, d.user, d.id) == PointIds(s.store.chunks[(d.user, d.id)])
  {
    RunSingle(es);
    IndexedRowsAreCurrent(es, d);
  }

  /** When every index job is completed, nothing is pending and the whole index agrees with the texts. */
  lemma QuiescentIndexIsComplete(es: seq<Event>, d: Doc)
    requires OneWorker(es)
    requires var s := Run(es);
      && (forall j <- s.store.jobs :: j.kind.IndexMarkdown? ==> j.status == Completed)
      && d in s.store.docs.Values
    ensures var s := Run(es);
      && d.indexed
      && (d.user, d.id) in s.store.chunks
      && RowsHold(s.store.chunks[(d.user, d.id)], d)
      && PointsOf(s.points, d.user, d.id) == PointIds(s.store.chunks[(d.user, d.id)])
      && (forall p <- PointsOf(s.points, d.user, d.id) :: p.version == d.version && p.index < |Chunking.Pieces(d.text)|)
      && (forall i: nat :: i < |Chunking.Pieces(d.text)| ==> PointId(d.user, d.id, d.version, i) in s.points)
  {
    if !d.indexed {
      NoDocumentForgotten(es, d);
      assert false;
    }
    IndexAgreesWithText(es, d);
    IndexedRowsHoldTheText(es, d);
    hide Run, RowsHold, OneWorker;
    ChunkPoints(d);
  }

  lemma ChunkPoints(d: Doc)
    ensures forall p <- PointIds(ChunksOf(d)) :: p.version == d.version && p.index < |Chunking.Pieces(d.text)|
    ensures forall i: nat :: i < |Chunking.Pieces(d.text)| ==> PointId(d.user, d.id, d.version, i) in PointIds(ChunksOf(d))
  {
    hide Chunking.Pieces;
    forall i: nat | i < |Chunking.Pieces(d.text)| ensures PointId(d.user, d.id, d.version, i) in PointIds(ChunksOf(d)) {
      assert ChunksOf(d)[i] in ChunksOf(d);
    }
  }
}
