/**
 What every run keeps, for any number of workers.

 Each invariant speaks of a set `D` of documents: the live ones, plus, in the middle of a move, the
 ones still to be moved (a move may take a document out of the map before its own turn comes).
 */
module RagInvariants {
  import opened Wrappers
  import opened RagStore
  import Chunking
  import opened RagWorker

  // ----- the invariants -----

  ghost predicate DocsOk(D: set<Doc>, s: Store) {
    && (forall d <- D :: d.id < s.nextId && d.version >= 1)
    && (forall d <- D, e <- D :: d.id == e.id ==> d == e)
  }

  predicate RowFits(j: Job, d: Doc) {
    && j.kind.IndexMarkdown? && j.user == d.user && j.version <= d.version
    && (j.version == d.version ==> j.hash == d.hash)
  }

  /** Rows keep their position, and none is failed for good; every row about a live document is an index row for a version it had. */
  ghost predicate JobsOk(D: set<Doc>, s: Store) {
    && (forall i :: 0 <= i < |s.jobs| ==> s.jobs[i].id == i && s.jobs[i].doc < s.nextId && s.jobs[i].status != Failed)
    && (forall d <- D, i :: 0 <= i < |s.jobs| && s.jobs[i].doc == d.id ==> RowFits(s.jobs[i], d))
  }

  predicate JobFor(j: Job, d: Doc) {
    j.kind.IndexMarkdown? && j.doc == d.id && j.version == d.version
  }

  ghost predicate HasJob(jobs: seq<Job>, d: Doc) {
    exists i :: 0 <= i < |jobs| && JobFor(jobs[i], d)
  }

  ghost predicate NoneCompleted(jobs: seq<Job>, d: Doc) {
    forall i :: 0 <= i < |jobs| && JobFor(jobs[i], d) ==> jobs[i].status != Completed
  }

  /** A document that is not indexed has a job for its version, and no such job was completed. */
  ghost predicate Remembered(D: set<Doc>, s: Store) {
    forall d <- D :: !d.indexed ==> HasJob(s.jobs, d) && NoneCompleted(s.jobs, d)
  }

  predicate RowsOfKey(rows: seq<Chunk>, user: UserId, id: nat) {
    && (forall c <- rows :: c.doc == id && c.point == PointId(user, id, c.version, c.index))
    && (forall i :: 0 <= i < |rows| ==> rows[i].index == i)
  }

  predicate RowsFit(rows: seq<Chunk>, d: Doc) {
    forall c <- rows :: c.version <= d.version && (c.version == d.version ==> rows == ChunksOf(d))
  }

  ghost predicate ChunksOk(D: set<Doc>, s: Store) {
    && (forall key <- s.chunks :: key.1 < s.nextId && RowsOfKey(s.chunks[key], key.0, key.1))
    && (forall key <- s.chunks, d <- D :: key.1 == d.id ==> key.0 == d.user)
    && (forall d <- D :: (d.user, d.id) in s.chunks ==> RowsFit(s.chunks[(d.user, d.id)], d))
    && (forall d <- D :: d.indexed ==> (d.user, d.id) in s.chunks && s.chunks[(d.user, d.id)] == ChunksOf(d))
  }

  predicate CopyOk(j: Job, jobs: seq<Job>) {
    j.id < |jobs| && SameRequest(j, jobs[j.id])
  }

  /** The worker's copy of a document agrees with the live one as long as the version does. */
  predicate SnapshotFits(copy: Doc, d: Doc) {
    copy.id == d.id ==>
      && copy.user == d.user && copy.version <= d.version
      && (copy.version == d.version ==> copy.text == d.text && copy.hash == d.hash)
  }

  ghost predicate SnapshotOk(D: set<Doc>, s: Store, job: Job, copy: Doc) {
    && copy.id == job.doc && copy.user == job.user && copy.version == job.version && copy.id < s.nextId
    && job.kind.IndexMarkdown?
    && (forall d <- D :: SnapshotFits(copy, d))
  }

  ghost predicate TaskOk(D: set<Doc>, s: Store, t: Task) {
    && (!t.Idle? ==> CopyOk(t.job, s.jobs))
    && (t.Clearing? ==> SnapshotOk(D, s, t.job, t.doc))
    && (t.Upserting? ==> SnapshotOk(D, s, t.job, t.doc) && t.done <= |ChunksOf(t.doc)|)
    && (t.Purged? ==> t.job.kind.DeleteMarkdown?)
    && (t.Done? ==> forall d <- D :: JobFor(t.job, d) ==> d.indexed)
  }

  ghost predicate WorkerOk(D: set<Doc>, s: Store, w: Worker) {
    && (forall j <- w.queue :: CopyOk(j, s.jobs))
    && TaskOk(D, s, w.task)
  }

  ghost predicate WorkersOk(D: set<Doc>, s: System) {
    forall w <- s.workers :: WorkerOk(D, s.store, s.workers[w])
  }

  ghost predicate StoreOk(D: set<Doc>, s: Store) {
    DocsOk(D, s) && JobsOk(D, s) && Remembered(D, s) && ChunksOk(D, s)
  }

  ghost predicate KeysOk(s: Store) {
    forall k <- s.docs :: s.docs[k].user == k.0 && s.docs[k].path == k.1
  }

  ghost predicate Invariant(s: System) {
    KeysOk(s.store) && StoreOk(s.store.docs.Values, s.store) && WorkersOk(s.store.docs.Values, s)
  }

  // ----- changes to the document set -----

  /** Fewer documents: nothing to show. */
  lemma Shrink(D: set<Doc>, E: set<Doc>, s: System)
    requires StoreOk(D, s.store) && WorkersOk(D, s) && E <= D
    ensures StoreOk(E, s.store) && WorkersOk(E, s)
  {}

  /** `e` is `d` itself, or `d` marked indexed, or a later version of it. */
  predicate Follows(d: Doc, e: Doc) {
    && e.id == d.id && e.user == d.user && d.version <= e.version
    && (e.version == d.version ==> e.text == d.text && e.hash == d.hash && (d.indexed ==> e.indexed))
  }

  /** Rows are only added; what a row asks for never changes. */
  ghost predicate RowsKept(jobs: seq<Job>, later: seq<Job>) {
    && |jobs| <= |later|
    && (forall i :: 0 <= i < |jobs| ==> SameRequest(jobs[i], later[i]))
  }

  /** A worker's knowledge stays true: ids are not reused and versions only grow. */
  lemma TaskFollows(D: set<Doc>, E: set<Doc>, s: Store, t: Store, task: Task)
    requires TaskOk(D, s, task) && JobsOk(D, s)
    requires s.nextId <= t.nextId && RowsKept(s.jobs, t.jobs)
    requires forall e <- E :: e.id < s.nextId ==> exists d <- D :: Follows(d, e)
    ensures TaskOk(E, t, task)
  {
    if task.Clearing? || task.Upserting? {
      forall e | e in E ensures SnapshotFits(task.doc, e) {
        if e.id == task.doc.id {
          var d :| d in D && Follows(d, e);
          assert SnapshotFits(task.doc, d);
        }
      }
    }
    if task.Done? {
      forall e | e in E && JobFor(task.job, e) ensures e.indexed {
        var row := s.jobs[task.job.id];
        var d :| d in D && Follows(d, e);
        assert RowFits(row, d);
      }
    }
  }

  lemma WorkersFollow(D: set<Doc>, E: set<Doc>, s: System, t: System)
    requires WorkersOk(D, s) && JobsOk(D, s.store)
    requires t.workers == s.workers && s.store.nextId <= t.store.nextId && RowsKept(s.store.jobs, t.store.jobs)
    requires forall e <- E :: e.id < s.store.nextId ==> exists d <- D :: Follows(d, e)
    ensures WorkersOk(E, t)
  {
    forall w | w in t.workers
      ensures WorkerOk(E, t.store, t.workers[w])
    {
      assert WorkerOk(D, s.store, s.workers[w]);
      TaskFollows(D, E, s.store, t.store, s.workers[w].task);
    }
  }

  lemma JobKept(jobs: seq<Job>, later: seq<Job>, d: Doc)
    requires RowsKept(jobs, later) && HasJob(jobs, d)
    ensures HasJob(later, d)
  {
    var i :| 0 <= i < |jobs| && JobFor(jobs[i], d);
    assert JobFor(later[i], d);
  }

  /** The store after a job for `e` was queued; `e` is new, or a new version. */
  ghost predicate Queued(s: Store, t: Store, e: Doc, now: int) {
    && t.jobs == PushRagJob(s, e, IndexMarkdown, now).jobs
    && t.chunks == s.chunks && s.nextId <= t.nextId && e.id < t.nextId
  }

  lemma QueuedJobs(D: set<Doc>, E: set<Doc>, e: Doc, s: Store, t: Store, now: int)
    requires JobsOk(D, s) && Queued(s, t, e, now)
    requires forall c <- E :: c == e || (c in D && c.id != e.id)
    requires forall i :: 0 <= i < |s.jobs| && s.jobs[i].doc == e.id ==> RowFits(s.jobs[i], e)
    ensures JobsOk(E, t) && RowsKept(s.jobs, t.jobs)
  {}

  lemma QueuedRemembered(D: set<Doc>, E: set<Doc>, e: Doc, s: Store, t: Store, now: int)
    requires Remembered(D, s) && Queued(s, t, e, now)
    requires forall c <- E :: c == e || (c in D && c.id != e.id)
    requires forall i :: 0 <= i < |s.jobs| ==> !JobFor(s.jobs[i], e)
    requires RowsKept(s.jobs, t.jobs)
    ensures Remembered(E, t)
  {
    assert JobFor(t.jobs[|s.jobs|], e);
    forall c | c in E && !c.indexed
      ensures HasJob(t.jobs, c) && NoneCompleted(t.jobs, c)
    {
      if c != e { JobKept(s.jobs, t.jobs, c); }
    }
  }

  lemma NextVersionChunks(D: set<Doc>, d: Doc, e: Doc, s: Store, t: Store)
    requires DocsOk(D, s) && ChunksOk(D, s) && d in D && e.id == d.id && e.user == d.user && e.version > d.version && !e.indexed
    requires t.chunks == s.chunks && s.nextId <= t.nextId
    ensures ChunksOk(D - {d} + {e}, t)
  {
    hide ChunksOf;
    if (d.user, d.id) in s.chunks { assert RowsFit(s.chunks[(d.user, d.id)], d); }
  }

  /** One document moves to its next version, not indexed, and a job for that version is queued. */
  lemma NextVersion(D: set<Doc>, d: Doc, e: Doc, s: System, t: System, now: int)
    requires StoreOk(D, s.store) && WorkersOk(D, s)
    requires d in D && e.id == d.id && e.user == d.user && e.version == d.version + 1 && !e.indexed
    requires t.workers == s.workers && Queued(s.store, t.store, e, now)
    ensures StoreOk(D - {d} + {e}, t.store) && WorkersOk(D - {d} + {e}, t)
  {
    var E := D - {d} + {e};
    forall i | 0 <= i < |s.store.jobs|
      ensures !JobFor(s.store.jobs[i], e) && (s.store.jobs[i].doc == e.id ==> RowFits(s.store.jobs[i], e))
    {
      if s.store.jobs[i].doc == d.id { assert RowFits(s.store.jobs[i], d); }
    }
    NextVersionChunks(D, d, e, s.store, t.store);
    assert DocsOk(E, t.store);
    hide ChunksOk;
    QueuedJobs(D, E, e, s.store, t.store, now);
    QueuedRemembered(D, E, e, s.store, t.store, now);
    assert Follows(d, e);
    hide JobsOk, Remembered, WorkersOk, Queued;
    forall c | c in E && c.id < s.store.nextId ensures exists b <- D :: Follows(b, c) {
      if c != e { assert Follows(c, c); }
    }
    WorkersFollow(D, E, s, t);
  }

  /** A new document with a fresh id and its first job. */
  lemma NewDoc(D: set<Doc>, e: Doc, s: System, t: System, now: int)
    requires StoreOk(D, s.store) && WorkersOk(D, s)
    requires e.id == s.store.nextId < t.store.nextId && e.version == 1 && !e.indexed
    requires t.workers == s.workers && Queued(s.store, t.store, e, now)
    ensures StoreOk(D + {e}, t.store) && WorkersOk(D + {e}, t)
  {
    var E := D + {e};
    QueuedJobs(D, E, e, s.store, t.store, now);
    QueuedRemembered(D, E, e, s.store, t.store, now);
    forall c | c in E && c.id < s.store.nextId ensures exists b <- D :: Follows(b, c) {
      assert Follows(c, c);
    }
    WorkersFollow(D, E, s, t);
  }

  lemma FewerChunks(D: set<Doc>, E: set<Doc>, s: Store, t: Store)
    requires ChunksOk(D, s) && E <= D && t.chunks == s.chunks && s.nextId <= t.nextId
    ensures ChunksOk(E, t)
  {
    hide ChunksOf, RowsFit, RowsOfKey;
  }

  /** A document is deleted; the row of its deletion job is about no live document. */
  lemma DropDoc(D: set<Doc>, d: Doc, s: System, t: System, now: int)
    requires StoreOk(D, s.store) && WorkersOk(D, s) && d in D
    requires t.workers == s.workers && t.store.chunks == s.store.chunks && t.store.nextId == s.store.nextId
    requires t.store.jobs == PushRagJob(s.store, d, DeleteMarkdown, now).jobs
    ensures StoreOk(D - {d}, t.store) && WorkersOk(D - {d}, t)
  {
    hide ChunksOk, WorkersOk;
    var E := D - {d};
    forall c | c in E && !c.indexed
      ensures HasJob(t.store.jobs, c) && NoneCompleted(t.store.jobs, c)
    {
      JobKept(s.store.jobs, t.store.jobs, c);
    }
    assert DocsOk(E, t.store) && JobsOk(E, t.store) && RowsKept(s.store.jobs, t.store.jobs);
    FewerChunks(D, E, s.store, t.store);
    Unchanged(D, E);
    WorkersFollow(D, E, s, t);
  }

  lemma Unchanged(D: set<Doc>, E: set<Doc>)
    requires E <= D
    ensures forall e <- E :: exists d <- D :: Follows(d, e)
  {
    forall e | e in E ensures exists d <- D :: Follows(d, e) { assert Follows(e, e); }
  }

  /** A further job for the current version of a document. */
  lemma AnotherJob(D: set<Doc>, d: Doc, s: System, t: System, now: int)
    requires StoreOk(D, s.store) && WorkersOk(D, s) && d in D
    requires t.workers == s.workers && Queued(s.store, t.store, d, now) && t.store.nextId == s.store.nextId
    ensures StoreOk(D, t.store) && WorkersOk(D, t)
  {
    QueuedOnce(D, d, s.store, t.store, now);
    Unchanged(D, D);
    WorkersFollow(D, D, s, t);
  }

  lemma QueuedOnce(D: set<Doc>, d: Doc, s: Store, t: Store, now: int)
    requires StoreOk(D, s) && d in D && Queued(s, t, d, now) && t.nextId == s.nextId
    ensures StoreOk(D, t) && RowsKept(s.jobs, t.jobs)
  {
    hide ChunksOf, RowsOfKey, RowsFit;
    forall c | c in D && !c.indexed
      ensures HasJob(t.jobs, c) && NoneCompleted(t.jobs, c)
    {
      JobKept(s.jobs, t.jobs, c);
    }
    assert DocsOk(D, t) && ChunksOk(D, t);
    assert JobsOk(D, t) by {
      forall c | c in D && t.jobs[|s.jobs|].doc == c.id ensures RowFits(t.jobs[|s.jobs|], c) { assert c == d; }
    }
  }

  // ----- changes to the rows -----

  /** Rows changed status or attempts, none to failed; a row became completed only when its version is indexed. */
  ghost predicate RowsUpdated(D: set<Doc>, jobs: seq<Job>, later: seq<Job>) {
    && |jobs| == |later|
    && (forall i :: 0 <= i < |jobs| ==>
         && later[i].id == jobs[i].id && SameRequest(jobs[i], later[i]) && later[i].status != Failed
         && (later[i].status == Completed ==>
              jobs[i].status == Completed || forall d <- D :: JobFor(jobs[i], d) ==> d.indexed))
  }

  lemma UpdateRows(D: set<Doc>, s: Store, t: Store)
    requires StoreOk(D, s) && t == s.(jobs := t.jobs) && RowsUpdated(D, s.jobs, t.jobs)
    ensures StoreOk(D, t) && RowsKept(s.jobs, t.jobs)
  {
    forall d | d in D && !d.indexed
      ensures HasJob(t.jobs, d) && NoneCompleted(t.jobs, d)
    {
      JobKept(s.jobs, t.jobs, d);
      forall i | 0 <= i < |t.jobs| && JobFor(t.jobs[i], d)
        ensures t.jobs[i].status != Completed
      {
        assert JobFor(s.jobs[i], d);
      }
    }
  }

  /** Worker `w` takes up new work while the rows change; the other workers do not notice. */
  lemma UpdateWorker(D: set<Doc>, s: System, t: System, w: nat)
    requires StoreOk(D, s.store) && WorkersOk(D, s)
    requires t.store == s.store.(jobs := t.store.jobs) && RowsUpdated(D, s.store.jobs, t.store.jobs)
    requires w in t.workers && t.workers == s.workers[w := t.workers[w]] && WorkerOk(D, t.store, t.workers[w])
    ensures StoreOk(D, t.store) && WorkersOk(D, t)
  {
    UpdateRows(D, s.store, t.store);
    forall v | v in t.workers ensures WorkerOk(D, t.store, t.workers[v]) {
      if v != w { assert WorkerOk(D, s.store, s.workers[v]); }
    }
  }

  // ----- claiming -----

  /** Every row is as before or newly claimed; the copies are the newly claimed rows. */
  lemma {:induction false} ClaimChanges(jobs: seq<Job>, n: nat, limit: nat, now: int, at: int)
    requires n <= |jobs|
    ensures var (rows, claimed) := ClaimUpTo(jobs, n, limit, now, at);
      && (forall i :: n <= i < |jobs| ==> rows[i] == jobs[i])
      && (forall i :: 0 <= i < n ==> rows[i] == jobs[i] || (Claimable(jobs[i], now) && rows[i] == ClaimedRow(jobs[i], at)))
      && (forall j <- claimed :: exists i :: 0 <= i < n && Claimable(jobs[i], now) && rows[i] == ClaimedRow(jobs[i], at) == j)
  {
    if n > 0 {
      ClaimChanges(jobs, n - 1, limit, now, at);
      var (rows, claimed) := ClaimUpTo(jobs, n - 1, limit, now, at);
      var (rows', claimed') := ClaimUpTo(jobs, n, limit, now, at);
      forall j | j in claimed'
        ensures exists i :: 0 <= i < n && Claimable(jobs[i], now) && rows'[i] == ClaimedRow(jobs[i], at) == j
      {
        if j in claimed {
          var i :| 0 <= i < n - 1 && Claimable(jobs[i], now) && rows[i] == ClaimedRow(jobs[i], at) == j;
          assert rows'[i] == rows[i];
        } else {
          assert rows'[n - 1] == ClaimedRow(jobs[n - 1], at) == j;
        }
      }
    }
  }

  lemma IdleTaskOk(D: set<Doc>, s: Store)
    ensures TaskOk(D, s, Idle)
  {}

  lemma ClaimKeeps(D: set<Doc>, s: System, w: nat, limit: nat, now: int, at: int)
    requires StoreOk(D, s.store) && WorkersOk(D, s)
    ensures var t := DoClaim(s, w, limit, now, at); StoreOk(D, t.store) && WorkersOk(D, t)
  {
    hide DocsOk, Remembered, ChunksOk, ChunksOf, TaskOk;
    var me := WorkerAt(s, w);
    if me.queue == [] && me.task == Idle {
      IdleTaskOk(D, s.store);
      var t := DoClaim(s, w, limit, now, at);
      var (rows, claimed) := ClaimUpTo(s.store.jobs, |s.store.jobs|, limit, now, at);
      ClaimChanges(s.store.jobs, |s.store.jobs|, limit, now, at);
      forall j | j in claimed ensures CopyOk(j, rows) {
        var i :| 0 <= i < |rows| && rows[i] == ClaimedRow(s.store.jobs[i], at) == j;
      }
      UpdateWorker(D, s, t, w);
    }
  }

  lemma TakeKeeps(D: set<Doc>, s: System, w: nat)
    requires StoreOk(D, s.store) && WorkersOk(D, s)
    ensures var t := DoTake(s, w); StoreOk(D, t.store) && WorkersOk(D, t)
  {
    hide DocsOk, Remembered, ChunksOk, ChunksOf;
    var me := WorkerAt(s, w);
    if me.queue != [] && me.task == Idle {
      var t := DoTake(s, w);
      assert w in s.workers && WorkerOk(D, s.store, me);
      assert me.queue[0] in me.queue;
      forall j | j in me.queue[1..] ensures CopyOk(j, t.store.jobs) {
        assert j in me.queue;
      }
      UpdateWorker(D, s, t, w);
    }
  }

  /** A task whose source is not current concerns no document that still waits for it. */
  lemma StaleSource(s: Store, job: Job, d: Doc)
    requires JobsOk(s.docs.Values, s) && DocsOk(s.docs.Values, s) && CopyOk(job, s.jobs)
    requires d in s.docs.Values && JobFor(job, d)
    ensures SourceIsCurrent(s, job)
  {
    assert RowFits(s.jobs[job.id], d);
    var k :| k in s.docs && s.docs[k] == d;
    assert IsLive(s, job.user, job.doc);
  }

  lemma LoadKeeps(D: set<Doc>, s: System, w: nat)
    requires StoreOk(D, s.store) && WorkersOk(D, s) && D == s.store.docs.Values
    ensures var t := DoLoad(s, w); t.store == s.store && WorkersOk(D, t)
  {
    var task := WorkerAt(s, w).task;
    if task.Ready? && task.job.kind.IndexMarkdown? {
      assert w in s.workers && WorkerOk(D, s.store, s.workers[w]);
      forall d | d in D && JobFor(task.job, d) ensures SourceIsCurrent(s.store, task.job) {
        StaleSource(s.store, task.job, d);
      }
      NewTask(D, s, DoLoad(s, w), w);
    }
  }

  /** Only worker `w` went on; the store is as it was. */
  lemma NewTask(D: set<Doc>, s: System, t: System, w: nat)
    requires StoreOk(D, s.store) && WorkersOk(D, s) && t.store == s.store && w in s.workers
    requires w in t.workers && t.workers == s.workers[w := t.workers[w]]
    requires t.workers[w].queue == s.workers[w].queue && TaskOk(D, s.store, t.workers[w].task)
    ensures StoreOk(D, t.store) && WorkersOk(D, t)
  {
    assert WorkerOk(D, s.store, s.workers[w]);
  }

  lemma ClearKeeps(D: set<Doc>, s: System, w: nat)
    requires StoreOk(D, s.store) && WorkersOk(D, s)
    ensures var t := DoClear(s, w); StoreOk(D, t.store) && WorkersOk(D, t)
  {
    if WorkerAt(s, w).task.Clearing? {
      assert w in s.workers && WorkerOk(D, s.store, s.workers[w]);
      if !TooLarge(WorkerAt(s, w).task.doc) { NewTask(D, s, DoClear(s, w), w); }
    }
  }

  lemma UpsertKeeps(D: set<Doc>, s: System, w: nat)
    requires StoreOk(D, s.store) && WorkersOk(D, s)
    ensures var t := DoUpsert(s, w); StoreOk(D, t.store) && WorkersOk(D, t)
  {
    hide Chunking.Pieces, Chunking.SectionCount;
    var task := WorkerAt(s, w).task;
    if task.Upserting? && task.done < |ChunksOf(task.doc)| {
      assert w in s.workers && WorkerOk(D, s.store, s.workers[w]);
      NewTask(D, s, DoUpsert(s, w), w);
    }
  }

  lemma PurgeKeeps(D: set<Doc>, s: System, w: nat)
    requires StoreOk(D, s.store) && WorkersOk(D, s)
    ensures var t := DoPurge(s, w); StoreOk(D, t.store) && WorkersOk(D, t)
  {
    var task := WorkerAt(s, w).task;
    if task.Ready? && task.job.kind.DeleteMarkdown? {
      assert w in s.workers && WorkerOk(D, s.store, s.workers[w]);
      NewTask(D, s, DoPurge(s, w), w);
    }
  }

  lemma CrashKeeps(D: set<Doc>, s: System, w: nat, effect: set<PointId>)
    requires StoreOk(D, s.store) && WorkersOk(D, s)
    ensures var t := DoCrash(s, w, effect); StoreOk(D, t.store) && WorkersOk(D, t)
  {}

  lemma CompleteKeeps(D: set<Doc>, s: System, w: nat)
    requires StoreOk(D, s.store) && WorkersOk(D, s)
    ensures var t := DoComplete(s, w); t.store.docs == s.store.docs && StoreOk(D, t.store) && WorkersOk(D, t)
  {
    hide DocsOk, Remembered, ChunksOk, ChunksOf;
    var me := WorkerAt(s, w);
    if me.task.Done? {
      assert w in s.workers && WorkerOk(D, s.store, me);
      UpdateWorker(D, s, DoComplete(s, w), w);
    }
  }

  lemma FailKeeps(D: set<Doc>, s: System, w: nat, retryable: bool, effect: set<PointId>, retryAt: int)
    requires StoreOk(D, s.store) && WorkersOk(D, s)
    ensures var t := DoFail(s, w, retryable, effect, retryAt); StoreOk(D, t.store) && WorkersOk(D, t)
  {
    var me := WorkerAt(s, w);
    if !me.task.Idle? {
      assert w in s.workers && WorkerOk(D, s.store, me);
      UpdateWorker(D, s, DoFail(s, w, retryable, effect, retryAt), w);
    }
  }

  lemma RetryKeeps(D: set<Doc>, s: System, id: nat, now: int)
    requires StoreOk(D, s.store) && WorkersOk(D, s)
    ensures var t := DoRetry(s, id, now); StoreOk(D, t.store) && WorkersOk(D, t)
  {
    if RetryApplies(s.store.jobs, id) {
      var t := DoRetry(s, id, now);
      UpdateRows(D, s.store, t.store);
      forall w | w in t.workers ensures WorkerOk(D, t.store, t.workers[w]) {
        assert WorkerOk(D, s.store, s.workers[w]);
        assert TaskOk(D, t.store, t.workers[w].task);
      }
    }
  }
}
