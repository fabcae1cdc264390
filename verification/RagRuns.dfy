/**
 Every run of store operations, workers and crashes keeps the invariants; and what that means for
 the documents and for semantic search.
 */
module RagRuns {
  import opened Wrappers
  import opened RagStore
  import opened RagPaths
  import Chunking
  import T = ChunkingTheorems
  import Utf16
  import opened RagWorker
  import opened RagInvariants

  // ----- persisting chunk rows -----

  function Marked(d: Doc, user: UserId, id: nat): Doc {
    if d.user == user && d.id == id then d.(indexed := true) else d
  }

  /** The chunk rows depend on the text and the version, not on the index status. */
  lemma SameChunks(d: Doc, e: Doc)
    requires d.user == e.user && d.id == e.id && d.version == e.version && d.text == e.text
    ensures ChunksOf(d) == ChunksOf(e)
  {
    assert |ChunksOf(d)| == |ChunksOf(e)|;
    assert forall i :: 0 <= i < |ChunksOf(d)| ==> ChunksOf(d)[i] == ChunksOf(e)[i];
  }

  lemma MarkedValues(s: Store, user: UserId, id: nat)
    ensures forall e <- MarkIndexed(s.docs, user, id).Values :: exists d <- s.docs.Values :: e == Marked(d, user, id)
  {
    var docs := MarkIndexed(s.docs, user, id);
    forall e | e in docs.Values ensures exists d <- s.docs.Values :: e == Marked(d, user, id) {
      var k :| k in docs && docs[k] == e;
      assert s.docs[k] in s.docs.Values;
    }
  }

  /** `E` is `D` with the documents of that id marked indexed. */
  ghost predicate MarkedSet(D: set<Doc>, E: set<Doc>, user: UserId, id: nat) {
    forall e <- E :: exists d <- D :: e == Marked(d, user, id)
  }

  lemma MarkedDocs(D: set<Doc>, E: set<Doc>, s: Store, t: Store, user: UserId, id: nat)
    requires DocsOk(D, s) && JobsOk(D, s) && Remembered(D, s) && MarkedSet(D, E, user, id)
    requires t.jobs == s.jobs && t.nextId == s.nextId
    ensures DocsOk(E, t) && JobsOk(E, t) && Remembered(E, t)
  {
    forall e | e in E && !e.indexed ensures HasJob(t.jobs, e) && NoneCompleted(t.jobs, e) {
      var d :| d in D && e == Marked(d, user, id);
    }
    forall e, i | e in E && 0 <= i < |t.jobs| && t.jobs[i].doc == e.id ensures RowFits(t.jobs[i], e) {
      var d :| d in D && e == Marked(d, user, id);
      assert RowFits(s.jobs[i], d);
    }
  }

  /** The live document with this id, when it has the version that was indexed. */
  lemma PersistedRows(D: set<Doc>, E: set<Doc>, s: Store, t: Store, copy: Doc)
    requires DocsOk(D, s) && ChunksOk(D, s) && MarkedSet(D, E, copy.user, copy.id)
    requires forall d <- D :: d.id == copy.id ==> d.user == copy.user && d.version == copy.version && d.text == copy.text
    requires copy.id < s.nextId && t.nextId == s.nextId && t.chunks == s.chunks[(copy.user, copy.id) := ChunksOf(copy)]
    ensures ChunksOk(E, t)
  {
    hide Chunking.Pieces, Chunking.SectionCount;
    forall e | e in E
      ensures (e.user, e.id) in t.chunks ==> RowsFit(t.chunks[(e.user, e.id)], e)
      ensures e.indexed ==> (e.user, e.id) in t.chunks && t.chunks[(e.user, e.id)] == ChunksOf(e)
    {
      var d :| d in D && e == Marked(d, copy.user, copy.id);
      SameChunks(d, e);
      if d.id == copy.id { SameChunks(copy, d); }
      else if (d.user, d.id) in s.chunks { assert RowsFit(s.chunks[(d.user, d.id)], d); }
    }
  }

  lemma GuardPasses(s: Store, copy: Doc, d: Doc)
    requires d in s.docs.Values && DocsOk(s.docs.Values, s)
    requires d.id == copy.id && d.version == copy.version && SnapshotFits(copy, d)
    ensures IsLive(s, copy.user, copy.id) && Lookup(s, copy.user, copy.id) == d
  {
    var k :| k in s.docs && s.docs[k] == d;
    assert IsLive(s, copy.user, copy.id);
  }

  function Indexed(s: Store, user: UserId, id: nat, rows: seq<Chunk>): Store {
    s.(chunks := s.chunks[(user, id) := rows], docs := MarkIndexed(s.docs, user, id))
  }

  /** Each document after the step follows one before it. */
  ghost predicate AllFollow(D: set<Doc>, E: set<Doc>) {
    forall e <- E :: exists d <- D :: Follows(d, e)
  }

  lemma MarkedFollow(D: set<Doc>, E: set<Doc>, user: UserId, id: nat)
    requires MarkedSet(D, E, user, id)
    ensures AllFollow(D, E)
  {
    forall e | e in E ensures exists d <- D :: Follows(d, e) {
      var d :| d in D && e == Marked(d, user, id);
      assert Follows(d, e);
    }
  }

  lemma GuardFails(s: Store, copy: Doc, t: Store)
    requires forall d <- s.docs.Values :: d.id == copy.id ==> d.version != copy.version
    requires t == ReplaceDocumentChunks(s, copy.user, copy.id, ChunksOf(copy), Some((copy.version, copy.hash)))
    ensures t == s
  {
    hide ChunksOf;
    assert IsLive(s, copy.user, copy.id) ==> Lookup(s, copy.user, copy.id).version != copy.version;
  }

  lemma GuardedStore(s: Store, copy: Doc, d: Doc, t: Store)
    requires DocsOk(s.docs.Values, s) && d in s.docs.Values && d.id == copy.id && d.version == copy.version && SnapshotFits(copy, d)
    requires t == ReplaceDocumentChunks(s, copy.user, copy.id, ChunksOf(copy), Some((copy.version, copy.hash)))
    ensures t == Indexed(s, copy.user, copy.id, ChunksOf(copy))
  {
    hide ChunksOf;
    GuardPasses(s, copy, d);
  }

  lemma AllFollowSelf(D: set<Doc>)
    ensures AllFollow(D, D)
  {
    forall e | e in D ensures exists d <- D :: Follows(d, e) { assert Follows(e, e); }
  }

  /** What is marked indexed is the document that was written. */
  lemma MarkedIsIndexed(D: set<Doc>, E: set<Doc>, s: Store, job: Job, copy: Doc)
    requires SnapshotOk(D, s, job, copy) && MarkedSet(D, E, copy.user, copy.id)
    ensures forall e <- E :: JobFor(job, e) ==> e.indexed
  {
    forall e | e in E && JobFor(job, e) ensures e.indexed {
      var d :| d in D && e == Marked(d, copy.user, copy.id);
      assert SnapshotFits(copy, d);
    }
  }

  /** The guarded write changes nothing, or it stores the rows and marks the document indexed. */
  lemma PersistStore(s: Store, copy: Doc, job: Job, t: Store)
    requires StoreOk(s.docs.Values, s) && SnapshotOk(s.docs.Values, s, job, copy)
    requires t == ReplaceDocumentChunks(s, copy.user, copy.id, ChunksOf(copy), Some((copy.version, copy.hash)))
    ensures t == s || t == Indexed(s, copy.user, copy.id, ChunksOf(copy))
    ensures t == s || forall d <- s.docs.Values :: d.id == copy.id ==> d.version == copy.version
    ensures StoreOk(t.docs.Values, t) && AllFollow(s.docs.Values, t.docs.Values)
    ensures forall e <- t.docs.Values :: JobFor(job, e) ==> e.indexed
  {
    var D, E := s.docs.Values, t.docs.Values;
    hide ReplaceDocumentChunks, ChunksOf, JobsOk, Remembered, ChunksOk, AllFollow;
    if forall d <- D :: d.id == copy.id ==> d.version != copy.version {
      GuardFails(s, copy, t);
      AllFollowSelf(D);
    } else {
      var d :| d in D && d.id == copy.id && d.version == copy.version;
      assert SnapshotFits(copy, d);
      GuardedStore(s, copy, d, t);
      MarkedValues(s, copy.user, copy.id);
      MarkedDocs(D, E, s, t, copy.user, copy.id);
      PersistedRows(D, E, s, t, copy);
      MarkedFollow(D, E, copy.user, copy.id);
      MarkedIsIndexed(D, E, s, job, copy);
    }
  }

  lemma PersistKeeps(s: System, w: nat)
    requires Invariant(s)
    ensures Invariant(DoPersist(s, w))
  {
    hide Chunking.Pieces, Chunking.SectionCount, Remembered, ChunksOk, DocsOk;
    var task := WorkerAt(s, w).task;
    if task.Upserting? && task.done == |ChunksOf(task.doc)| {
      assert w in s.workers && WorkerOk(s.store.docs.Values, s.store, s.workers[w]);
      var t := DoPersist(s, w);
      PersistStore(s.store, task.doc, task.job, t.store);
      WorkersFollow(s.store.docs.Values, t.store.docs.Values, s, s.(store := t.store));
      assert TaskOk(t.store.docs.Values, t.store, Done(task.job));
      NewTask(t.store.docs.Values, s.(store := t.store), t, w);
    }
  }

  lemma DeletedId(s: Store, job: Job)
    requires StoreOk(s.docs.Values, s) && CopyOk(job, s.jobs) && job.kind.DeleteMarkdown?
    ensures forall d <- s.docs.Values :: d.id != job.doc
  {
    hide ChunksOk, Remembered;
    forall d | d in s.docs.Values ensures d.id != job.doc {
      assert s.jobs[job.id].doc == d.id ==> RowFits(s.jobs[job.id], d);
    }
  }

  lemma PurgedDocs(s: Store, job: Job, t: Store)
    requires forall d <- s.docs.Values :: d.id != job.doc
    requires t == ReplaceDocumentChunks(s, job.user, job.doc, [], None)
    ensures t.docs == s.docs && t.jobs == s.jobs && t.nextId == s.nextId
    ensures t.chunks == s.chunks[(job.user, job.doc) := []]
  {
    forall k | k in s.docs ensures t.docs[k] == s.docs[k] {
      assert s.docs[k] in s.docs.Values;
    }
    assert t.docs == s.docs;
  }

  lemma PurgedRows(D: set<Doc>, s: Store, t: Store, user: UserId, id: nat)
    requires ChunksOk(D, s) && (forall d <- D :: d.id != id) && id < s.nextId && t.nextId == s.nextId
    requires t.chunks == s.chunks[(user, id) := []]
    ensures ChunksOk(D, t)
  {
    hide ChunksOf;
  }

  /** Clearing the rows of a deleted document touches no live one. */
  lemma PurgeStore(s: Store, job: Job, t: Store)
    requires StoreOk(s.docs.Values, s) && CopyOk(job, s.jobs) && job.kind.DeleteMarkdown?
    requires t == ReplaceDocumentChunks(s, job.user, job.doc, [], None)
    ensures t.docs == s.docs && StoreOk(t.docs.Values, t)
  {
    DeletedId(s, job);
    PurgedDocs(s, job, t);
    hide ChunksOf, ReplaceDocumentChunks, ChunksOk;
    var D := s.docs.Values;
    PurgedRows(D, s, t, job.user, job.doc);
    assert DocsOk(D, t) && JobsOk(D, t) && Remembered(D, t);
  }

  lemma PurgeRowsKeeps(s: System, w: nat)
    requires Invariant(s)
    ensures Invariant(DoPurgeRows(s, w))
  {
    var task := WorkerAt(s, w).task;
    if task.Purged? {
      var D := s.store.docs.Values;
      assert w in s.workers && WorkerOk(D, s.store, s.workers[w]);
      var t := DoPurgeRows(s, w);
      PurgeStore(s.store, task.job, t.store);
      var mid := s.(store := t.store);
      assert WorkersOk(D, mid) by {
        forall v | v in mid.workers ensures WorkerOk(D, mid.store, mid.workers[v]) {
          assert WorkerOk(D, s.store, s.workers[v]);
        }
      }
      assert TaskOk(D, t.store, Done(task.job)) by {
        assert !exists d <- D :: JobFor(task.job, d);
      }
      NewTask(D, mid, t, w);
    }
  }

  // ----- store operations -----

  lemma WriteKeeps(s: System, user: UserId, path: Path, text: Text, hash: Hash, expected: Option<nat>, now: int)
    requires Invariant(s)
    ensures Invariant(s.(store := WriteMarkdown(s.store, user, path, text, hash, expected, now).0))
  {
    var store := WriteMarkdown(s.store, user, path, text, hash, expected, now).0;
    if store != s.store {
      var D, k, e := s.store.docs.Values, (user, path), NextDoc(s.store, user, path, text, hash);
      assert k in s.store.docs ==> s.store.docs[k] in D;
      assert store.docs == s.store.docs[k := e];
      assert Queued(s.store, store, e, now);
      StoreDoc(s, s.(store := store), k, e, now);
    }
  }

  /** A new version, or a new document, under its key. */
  lemma StoreDoc(s: System, t: System, k: (UserId, Path), e: Doc, now: int)
    requires Invariant(s) && t.workers == s.workers && Queued(s.store, t.store, e, now)
    requires t.store.docs == s.store.docs[k := e] && e.user == k.0 && e.path == k.1 && !e.indexed
    requires if k in s.store.docs then e.id == s.store.docs[k].id && e.version == s.store.docs[k].version + 1
      else e.id == s.store.nextId < t.store.nextId && e.version == 1
    ensures Invariant(t)
  {
    hide WorkersOk, Remembered, ChunksOk, JobsOk;
    var D := s.store.docs.Values;
    var E := if k in s.store.docs then D - {s.store.docs[k]} + {e} else D + {e};
    if k in s.store.docs {
      NextVersion(D, s.store.docs[k], e, s, t, now);
      SetValues(s.store.docs, k, e);
    } else {
      NewDoc(D, e, s, t, now);
    }
    Shrink(E, t.store.docs.Values, t);
  }

  /** Replacing the document under a key removes exactly that document. */
  lemma SetValues(docs: map<(UserId, Path), Doc>, k: (UserId, Path), e: Doc)
    requires k in docs && forall d <- docs.Values, c <- docs.Values :: d.id == c.id ==> d == c
    requires forall j <- docs :: docs[j].user == j.0 && docs[j].path == j.1
    ensures docs[k := e].Values <= docs.Values - {docs[k]} + {e}
    ensures (docs - {k}).Values == docs.Values - {docs[k]}
  {
    forall j | j in docs && j != k ensures docs[j] != docs[k] {}
    forall d | d in (docs - {k}).Values ensures d in docs.Values - {docs[k]} {
      var j :| j in docs - {k} && (docs - {k})[j] == d;
    }
    forall d | d in docs.Values - {docs[k]} ensures d in (docs - {k}).Values {
      var j :| j in docs && docs[j] == d;
      assert j in docs - {k};
    }
    forall d | d in docs[k := e].Values ensures d in docs.Values - {docs[k]} + {e} {
      var j :| j in docs[k := e] && docs[k := e][j] == d;
    }
  }

  lemma RemoveKeeps(s: System, user: UserId, path: Path, expected: Option<nat>, now: int)
    requires Invariant(s)
    ensures Invariant(s.(store := DeleteMarkdownPath(s.store, user, path, expected, now).0))
  {
    var store, k := DeleteMarkdownPath(s.store, user, path, expected, now).0, (user, path);
    if store != s.store {
      SetValues(s.store.docs, k, s.store.docs[k]);
      DropDoc(s.store.docs.Values, s.store.docs[k], s, s.(store := store), now);
    }
  }

  /** One move inside a larger one: `D` holds the live documents and those still to be moved. */
  lemma MoveOneKeeps(D: set<Doc>, s: System, d: Doc, from: Path, to: Path, now: int)
    requires KeysOk(s.store) && StoreOk(D, s.store) && WorkersOk(D, s)
    requires s.store.docs.Values <= D && d in D && InTree(d.path, from)
    ensures var t := s.(store := MoveOne(s.store, d, from, to, now)); var E := D - {d} + {MovedDoc(d, from, to)};
      KeysOk(t.store) && StoreOk(E, t.store) && WorkersOk(E, t) && t.store.docs.Values <= E
  {
    hide WorkersOk, JobsOk, Remembered, ChunksOk;
    var t, e := s.(store := MoveOne(s.store, d, from, to, now)), MovedDoc(d, from, to);
    var E := D - {d} + {e};
    NextVersion(D, d, e, s, t, now);
    hide DocsOk;
    forall c | c in t.store.docs.Values ensures c in E {
      var k :| k in t.store.docs && t.store.docs[k] == c;
      if k != (e.user, e.path) {
        assert s.store.docs[k] in D && k != (d.user, d.path);
      }
    }
  }

  ghost predicate Distinct(order: seq<Doc>) {
    forall i, j :: 0 <= i < j < |order| ==> order[i] != order[j]
  }

  lemma {:induction false} MoveKeeps(s: System, order: seq<Doc>, i: nat, from: Path, to: Path, now: int) returns (D: set<Doc>)
    requires Invariant(s) && i <= |order| && Distinct(order)
    requires forall d <- order :: d in s.store.docs.Values && InTree(d.path, from)
    ensures var t := s.(store := MoveDocs(s.store, order[..i], from, to, now));
      KeysOk(t.store) && StoreOk(D, t.store) && WorkersOk(D, t) && t.store.docs.Values <= D
    ensures forall j :: i <= j < |order| ==> order[j] in D
  {
    hide StoreOk, WorkersOk;
    if i == 0 {
      D := s.store.docs.Values;
    } else {
      var C := MoveKeeps(s, order, i - 1, from, to, now);
      assert order[..i][..i - 1] == order[..i - 1];
      var d := order[i - 1];
      assert InTree(d.path, from);
      MoveOneKeeps(C, s.(store := MoveDocs(s.store, order[..i - 1], from, to, now)), d, from, to, now);
      D := C - {d} + {MovedDoc(d, from, to)};
    }
  }

  lemma {:induction false} ReindexKeeps(s: System, order: seq<Doc>, now: int)
    requires Invariant(s) && forall d <- order :: d in s.store.docs.Values
    ensures Invariant(s.(store := PushJobs(s.store, order, now)))
    ensures PushJobs(s.store, order, now).docs == s.store.docs
  {
    if order != [] {
      var rest, d := order[..|order| - 1], order[|order| - 1];
      ReindexKeeps(s, rest, now);
      var mid := s.(store := PushJobs(s.store, rest, now));
      var t := s.(store := PushJobs(s.store, order, now));
      assert t.store == PushRagJob(mid.store, d, IndexMarkdown, now);
      AnotherJob(mid.store.docs.Values, d, mid, t, now);
    }
  }

  // ----- all events -----

  lemma StoreEventKeeps(s: System, e: Event)
    requires Invariant(s) && (e.Write? || e.Remove? || e.Move? || e.Reindex? || e.Retry?)
    ensures Invariant(Step(s, e))
  {
    hide StoreOk, WorkersOk, WriteMarkdown, DeleteMarkdownPath, MoveDocs, PushJobs;
    match e
    case Write(user, path, text, hash, expected, now) => WriteKeeps(s, user, path, text, hash, expected, now);
    case Remove(user, path, expected, now) => RemoveKeeps(s, user, path, expected, now);
    case Move(user, order, from, to, now) =>
      if Enumerates(order, s.store, user, p => InTree(p, from)) && (forall d <- order :: InTree(d.path, from)) {
        var D := MoveKeeps(s, order, |order|, from, to, now);
        assert order[..|order|] == order;
        Shrink(D, Step(s, e).store.docs.Values, Step(s, e));
      }
    case Reindex(user, order, prefix, now) =>
      if Enumerates(order, s.store, user, p => MatchesPrefix(p, prefix)) {
        ReindexKeeps(s, order, now);
      }
    case Retry(id, now) => RetryKeeps(s.store.docs.Values, s, id, now);
  }

  /** Steps that leave the documents alone. */
  lemma SameDocs(s: System, t: System)
    requires Invariant(s) && t.store.docs == s.store.docs
    requires StoreOk(s.store.docs.Values, t.store) && WorkersOk(s.store.docs.Values, t)
    ensures Invariant(t)
  {}

  lemma QueueEventKeeps(s: System, e: Event)
    requires Invariant(s) && (e.Claim? || e.Take?)
    ensures Invariant(Step(s, e))
  {
    hide StoreOk, WorkersOk, ClaimUpTo;
    var t := Step(s, e);
    match e {
      case Claim(w, limit, now, at) => ClaimKeeps(s.store.docs.Values, s, w, limit, now, at);
      case Take(w) => TakeKeeps(s.store.docs.Values, s, w);
    }
    SameDocs(s, t);
  }

  lemma RowEventKeeps(s: System, e: Event)
    requires Invariant(s) && (e.Load? || e.Complete?)
    ensures Invariant(Step(s, e))
  {
    hide StoreOk, WorkersOk;
    var D := s.store.docs.Values;
    if e.Load? {
      LoadKeeps(D, s, e.w);
      SameDocs(s, DoLoad(s, e.w));
    } else {
      CompleteKeeps(D, s, e.w);
      SameDocs(s, DoComplete(s, e.w));
    }
  }

  lemma AbortEventKeeps(s: System, e: Event)
    requires Invariant(s) && (e.Fail? || e.Crash?)
    ensures Invariant(Step(s, e))
  {
    hide StoreOk, WorkersOk, PartialEffect, WithOutcome, Bump, BumpAll, Held;
    var t := Step(s, e);
    match e {
      case Fail(w, retryable, effect, retryAt) => FailKeeps(s.store.docs.Values, s, w, retryable, effect, retryAt);
      case Crash(w, effect) => CrashKeeps(s.store.docs.Values, s, w, effect);
    }
    SameDocs(s, t);
  }

  lemma IndexEventKeeps(s: System, e: Event)
    requires Invariant(s) && (e.Clear? || e.Upsert? || e.Persist? || e.Purge? || e.PurgeRows?)
    ensures Invariant(Step(s, e))
  {
    hide StoreOk, WorkersOk, ChunksOf, Batch, TooLarge, DoPersist, DoPurgeRows, PointsOf;
    var D := s.store.docs.Values;
    match e
    case Clear(w) => ClearKeeps(D, s, w);
    case Upsert(w) => UpsertKeeps(D, s, w);
    case Persist(w) => PersistKeeps(s, w);
    case Purge(w) => PurgeKeeps(D, s, w);
    case PurgeRows(w) => PurgeRowsKeeps(s, w);
  }

  lemma StepKeeps(s: System, e: Event)
    requires Invariant(s)
    ensures Invariant(Step(s, e))
  {
    hide Invariant;
    if e.Write? || e.Remove? || e.Move? || e.Reindex? || e.Retry? {
      StoreEventKeeps(s, e);
    } else if e.Clear? || e.Upsert? || e.Persist? || e.Purge? || e.PurgeRows? {
      IndexEventKeeps(s, e);
    } else if e.Claim? || e.Take? {
      QueueEventKeeps(s, e);
    } else if e.Load? || e.Complete? {
      RowEventKeeps(s, e);
    } else {
      AbortEventKeeps(s, e);
    }
  }

  lemma {:induction false} RunKeeps(es: seq<Event>)
    ensures Invariant(Run(es))
  {
    if es != [] {
      RunKeeps(es[..|es| - 1]);
      StepKeeps(Run(es[..|es| - 1]), es[|es| - 1]);
    }
  }

  // ----- what it means -----

  /** The row still asks for exactly this document's text, and it is queued, at work, or dead-lettered. */
  predicate StillAsksFor(j: Job, d: Doc) {
    && j.kind.IndexMarkdown? && j.user == d.user && j.doc == d.id && j.version == d.version && j.hash == d.hash
    && (j.status == Pending || j.status == Claimed || j.status == Dead)
  }

  /** No document is forgotten: one that is not indexed has a pending, claimed or dead-lettered job for its version and hash. */
  lemma NoDocumentForgotten(es: seq<Event>, d: Doc)
    requires d in Run(es).store.docs.Values && !d.indexed
    ensures exists i :: 0 <= i < |Run(es).store.jobs| && StillAsksFor(Run(es).store.jobs[i], d)
  {
    RunKeeps(es);
    var jobs := Run(es).store.jobs;
    var i :| 0 <= i < |jobs| && JobFor(jobs[i], d);
    assert RowFits(jobs[i], d);
    assert StillAsksFor(jobs[i], d);
  }

  /** An indexed document's chunk rows are those of its current text. */
  lemma IndexedRowsAreCurrent(es: seq<Event>, d: Doc)
    requires d in Run(es).store.docs.Values && d.indexed
    ensures (d.user, d.id) in Run(es).store.chunks && Run(es).store.chunks[(d.user, d.id)] == ChunksOf(d)
  {
    RunKeeps(es);
  }

  function RowTexts(rows: seq<Chunk>): (r: seq<Text>)
    ensures |r| == |rows| && forall i :: 0 <= i < |r| ==> r[i] == rows[i].piece.content
  {
    seq(|rows|, i requires 0 <= i < |rows| => rows[i].piece.content)
  }

  /** The rows are the chunks of this text in order, and together hold every character of it that is not white space. */
  ghost predicate RowsHold(rows: seq<Chunk>, d: Doc) {
    && T.Ink(RowTexts(rows)) == T.NonSpace(Utf16.WellFormedText(d.text))
    && |rows| == |Chunking.Pieces(d.text)|
    && (forall i :: 0 <= i < |rows| ==> rows[i].piece == Chunking.Pieces(d.text)[i] && rows[i].index == i && rows[i].version == d.version)
  }

  lemma ChunksHoldTheText(d: Doc)
    ensures RowsHold(ChunksOf(d), d)
  {
    T.ChunkingIsLossless(d.text);
    hide T.Ink, T.NonSpace, Utf16.WellFormedText, Chunking.Pieces;
    assert RowTexts(ChunksOf(d)) == T.Contents(Chunking.Pieces(d.text));
  }

  /** In every run: the rows of an indexed document hold its current text. */
  lemma IndexedRowsHoldTheText(es: seq<Event>, d: Doc)
    requires d in Run(es).store.docs.Values && d.indexed
    ensures (d.user, d.id) in Run(es).store.chunks && RowsHold(Run(es).store.chunks[(d.user, d.id)], d)
  {
    IndexedRowsAreCurrent(es, d);
    ChunksHoldTheText(d);
  }

  lemma RunIsUnambiguous(es: seq<Event>)
    ensures UniqueIds(Run(es).store) && UniquePoints(Run(es).store)
  {
    RunKeeps(es);
    var s := Run(es).store;
    forall k, l | k in s.docs && l in s.docs && s.docs[k].id == s.docs[l].id ensures k == l {
      assert s.docs[k] in s.docs.Values && s.docs[l] in s.docs.Values;
    }
  }

  /** A row of a search result is a chunk of the current text of a live document of the user. */
  ghost predicate CurrentRow(s: Store, user: UserId, prefix: Path, row: SearchRow) {
    exists d :: d in s.docs.Values && d.user == user && d.path == row.path && d.version == row.version
      && Inside(d.path, prefix)
      && row.index < |Chunking.Pieces(d.text)| && Chunking.Pieces(d.text)[row.index] == row.piece
  }

  /**
   Search soundness, for every run, any number of workers, and whatever points the vector index
   returns, stale or invented: every result is part of the current text.
   */
  lemma {:induction false} SearchIsSound(es: seq<Event>, user: UserId, prefix: Path, hits: seq<(PointId, real)>, rows: seq<SearchRow>)
    requires SearchResult(Run(es).store, user, prefix, hits, rows)
    ensures forall row <- rows :: CurrentRow(Run(es).store, user, prefix, row)
  {
    hide Chunking.Pieces, Chunking.SectionCount;
    if hits != [] {
      var s, last, before := Run(es).store, hits[|hits| - 1], hits[..|hits| - 1];
      if SearchResult(s, user, prefix, before, rows) {
        SearchIsSound(es, user, prefix, before, rows);
      } else {
        var row := rows[|rows| - 1];
        SearchIsSound(es, user, prefix, before, rows[..|rows| - 1]);
        HitIsCurrent(es, user, prefix, last.0, last.1, row);
        assert rows == rows[..|rows| - 1] + [row];
      }
    }
  }

  lemma HitIsCurrent(es: seq<Event>, user: UserId, prefix: Path, point: PointId, score: real, row: SearchRow)
    requires HitYields(Run(es).store, user, prefix, point, score, row)
    ensures CurrentRow(Run(es).store, user, prefix, row)
  {
    RunKeeps(es);
    var s := Run(es).store;
    var c, d :| StoredRow(s, c) && c.point == point && d in s.docs.Values && Reports(d, c, user, prefix)
      && row == SearchRow(d.path, d.version, c.index, score, c.piece);
    var key :| key in s.chunks && c in s.chunks[key];
    assert key == (d.user, d.id);
    assert RowsFit(s.chunks[key], d);
    assert ChunksOf(d)[c.index] == c;
    TreeIsSegments(d.path, prefix);
  }
}
