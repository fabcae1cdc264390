/**
 The indexer as it is written: a job loop with a try block, and nested batch loops.

 Undisturbed by others, each method performs a continuation of a run of the protocol: the ghost
 event list it returns is what it did, step by step.
 */
module RagIndexer {
  import opened Wrappers
  import opened RagStore
  import opened RagWorker
  import opened RagInvariants
  import opened RagRuns
  import RagSingleWorker
  import M = MarkdownStore
  import Chunking
  import T = ChunkingTheorems

  /** The vector index of the provider: point ids by document. */
  class VectorIndex {
    var points: set<PointId>

    constructor ()
      ensures points == {}
    {
      points := {};
    }

    method DeletePointsByDocumentId(user: UserId, doc: nat)
      modifies this
      ensures points == old(points) - PointsOf(old(points), user, doc)
    {
      points := points - PointsOf(points, user, doc);
    }

    method UpsertPoints(batch: seq<Chunk>)
      modifies this
      ensures points == old(points) + PointIds(batch)
    {
      points := points + PointIds(batch);
    }
  }

  /** How a job's awaits go: `calls` of them succeed, then one throws. */
  datatype Fault = Fault(calls: nat, retryable: bool, retryAt: int)

  datatype Counts = Counts(claimed: nat, indexed: nat, deleted: nat, failed: nat, dead: nat)

  ghost predicate Mirrors(s: System, store: M.MarkdownStore, index: VectorIndex)
    reads store, index
  {
    s.store == store.State() && s.points == index.points
  }

  lemma RunExtends(es: seq<Event>, e: Event)
    ensures Run(es + [e]) == Step(Run(es), e)
  {
    assert (es + [e])[..|es|] == es;
  }

  lemma UpsertRuns(es: seq<Event>, w: nat, job: Job, doc: Doc, done: nat)
    requires WorkerAt(Run(es), w).task == Upserting(job, doc, done) && done < |ChunksOf(doc)|
    ensures var s, t, end := Run(es), Run(es + [Upsert(w)]), BatchEnd(done, |ChunksOf(doc)|);
      && t.points == s.points + PointIds(ChunksOf(doc)[done..end]) && t.store == s.store
      && WorkerAt(t, w) == WorkerAt(s, w).(task := Upserting(job, doc, end))
  {
    hide Chunking.Pieces, Chunking.SectionCount;
    RunExtends(es, Upsert(w));
  }

  /** The batch the slices pick is the batch the protocol names. */
  lemma BatchBounds(chunks: seq<Chunk>, offset: nat, batchOffset: nat, end: nat)
    requires offset % RAG_EMBEDDING_BATCH_SIZE == 0 && batchOffset % RAG_QDRANT_UPSERT_BATCH_SIZE == 0
    requires end == (if offset + RAG_EMBEDDING_BATCH_SIZE < |chunks| then offset + RAG_EMBEDDING_BATCH_SIZE else |chunks|)
    requires offset + batchOffset < end
    ensures var batchEnd := if batchOffset + RAG_QDRANT_UPSERT_BATCH_SIZE < end - offset then batchOffset + RAG_QDRANT_UPSERT_BATCH_SIZE else end - offset;
      && BatchEnd(offset + batchOffset, |chunks|) == offset + batchEnd
      && chunks[offset..end][batchOffset..batchEnd] == chunks[offset + batchOffset..offset + batchEnd]
  {
    assert batchOffset == 0 || batchOffset == RAG_QDRANT_UPSERT_BATCH_SIZE;
    assert (offset + batchOffset) % RAG_EMBEDDING_BATCH_SIZE == batchOffset;
  }

  /** Upserting one embedding batch: eight points at a time, stopping at the first call that throws. */
  method UpsertEmbeddingBatch(index: VectorIndex, job: Job, doc: Doc, chunks: seq<Chunk>, offset: nat, calls: nat, ghost w: nat, ghost es: seq<Event>)
    returns (ok: bool, left: nat, done: nat, ghost es': seq<Event>)
    requires chunks == ChunksOf(doc) && offset < |chunks| && offset % RAG_EMBEDDING_BATCH_SIZE == 0
    requires Run(es).points == index.points && WorkerAt(Run(es), w).task == Upserting(job, doc, offset)
    modifies index
    ensures es <= es' && left <= calls
    ensures Run(es').points == index.points && Run(es').store == Run(es).store
    ensures WorkerAt(Run(es'), w) == WorkerAt(Run(es), w).(task := Upserting(job, doc, done))
    ensures offset <= done <= |chunks|
    ensures ok ==> done == if offset + RAG_EMBEDDING_BATCH_SIZE < |chunks| then offset + RAG_EMBEDDING_BATCH_SIZE else |chunks|
  {
    hide Run, WorkerAt, BatchEnd, ChunksOf, PointIds;
    var end := if offset + RAG_EMBEDDING_BATCH_SIZE < |chunks| then offset + RAG_EMBEDDING_BATCH_SIZE else |chunks|;
    var embeddingBatch := chunks[offset..end];
    ok, left, es', done := true, calls, es, offset;
    var batchOffset := 0;
    while batchOffset < |embeddingBatch|
      invariant 0 <= batchOffset && batchOffset % RAG_QDRANT_UPSERT_BATCH_SIZE == 0
      invariant done == if batchOffset < |embeddingBatch| then offset + batchOffset else end
      invariant es <= es' && left <= calls && ok
      invariant Run(es').points == index.points && Run(es').store == Run(es).store
      invariant WorkerAt(Run(es'), w) == WorkerAt(Run(es), w).(task := Upserting(job, doc, done))
    {
      if left == 0 { return false, left, done, es'; }
      left := left - 1;
      var batchEnd := if batchOffset + RAG_QDRANT_UPSERT_BATCH_SIZE < |embeddingBatch| then batchOffset + RAG_QDRANT_UPSERT_BATCH_SIZE else |embeddingBatch|;
      var qdrantChunks := embeddingBatch[batchOffset..batchEnd];
      BatchBounds(chunks, offset, batchOffset, end);
      index.UpsertPoints(qdrantChunks);
      UpsertRuns(es', w, job, doc, done);
      es' := es' + [Upsert(w)];
      done := offset + batchEnd;
      batchOffset := batchOffset + RAG_QDRANT_UPSERT_BATCH_SIZE;
    }
  }

  lemma ClearRuns(es: seq<Event>, w: nat, job: Job, doc: Doc)
    requires WorkerAt(Run(es), w).task == Clearing(job, doc) && !TooLarge(doc)
    ensures var s, t := Run(es), Run(es + [Clear(w)]);
      && t.points == s.points - PointsOf(s.points, doc.user, doc.id) && t.store == s.store
      && WorkerAt(t, w) == WorkerAt(s, w).(task := Upserting(job, doc, 0))
  {
    hide Chunking.Pieces, Chunking.SectionCount;
    RunExtends(es, Clear(w));
  }

  lemma PersistRuns(es: seq<Event>, w: nat, job: Job, doc: Doc)
    requires WorkerAt(Run(es), w).task == Upserting(job, doc, |ChunksOf(doc)|)
    ensures var s, t := Run(es), Run(es + [Persist(w)]);
      && t.points == s.points && UniqueIds(s.store)
      && t.store == ReplaceDocumentChunks(s.store, doc.user, doc.id, ChunksOf(doc), Some((doc.version, doc.hash)))
      && WorkerAt(t, w) == WorkerAt(s, w).(task := Done(job))
  {
    hide Chunking.Pieces, Chunking.SectionCount;
    RunExtends(es, Persist(w));
    RunIsUnambiguous(es);
  }

  /** The limits, checked against the chunker as it is called: it stops at the first chunk over the limit. */
  method PrepareChunks(doc: Doc) returns (tooLarge: bool, chunks: seq<Chunk>)
    ensures tooLarge == TooLarge(doc) && (!tooLarge ==> chunks == ChunksOf(doc))
  {
    hide Chunking.Pieces, Chunking.SectionCount, T.IsChunk;
    chunks := [];
    if |doc.text| > MAX_RAG_SOURCE_CHARS {
      return true, chunks;
    }
    var pieces, sectionCount := Chunking.ChunkMarkdownDocumentWithStats(doc.text, Some(MAX_RAG_SOURCE_SECTIONS), Some(MAX_RAG_SOURCE_CHUNKS));
    if sectionCount > MAX_RAG_SOURCE_SECTIONS || |pieces| > MAX_RAG_SOURCE_CHUNKS {
      return true, chunks;
    }
    tooLarge := false;
    T.PiecesAreChunks(doc.text);
    chunks := seq(|pieces|, i requires 0 <= i < |pieces| =>
      Chunk(PointId(doc.user, doc.id, doc.version, pieces[i].index), doc.id, doc.version, pieces[i].index, pieces[i]));
    assert forall i :: 0 <= i < |pieces| ==> T.IsPiece(pieces[i], i);
  }

  /** Clear, embed and upsert batch by batch, then persist the rows behind the version guard. */
  method IndexMarkdownDocument(store: M.MarkdownStore, index: VectorIndex, job: Job, doc: Doc, calls: nat, ghost w: nat, ghost es: seq<Event>)
    returns (ok: bool, tooLarge: bool, ghost es': seq<Event>)
    requires Mirrors(Run(es), store, index) && WorkerAt(Run(es), w).task == Clearing(job, doc)
    modifies store, index
    ensures es <= es' && Mirrors(Run(es'), store, index)
    ensures WorkerAt(Run(es'), w).queue == WorkerAt(Run(es), w).queue
    ensures store.jobs == old(store.jobs)
    ensures tooLarge == TooLarge(doc) && (tooLarge ==> !ok && es' == es)
    ensures ok ==> WorkerAt(Run(es'), w).task == Done(job)
    ensures !ok ==> var t := WorkerAt(Run(es'), w).task; (t.Clearing? || t.Upserting?) && t.job == job
  {
    hide Chunking.Pieces, Chunking.SectionCount, Run, WorkerAt, TooLarge, PointsOf;
    es' := es;
    var chunks;
    tooLarge, chunks := PrepareChunks(doc);
    if tooLarge || calls == 0 { return false, tooLarge, es'; }
    var left: nat := calls - 1;
    index.DeletePointsByDocumentId(doc.user, doc.id);
    ClearRuns(es', w, job, doc);
    es' := es' + [Clear(w)];
    var offset, completedChunks := 0, 0;
    while offset < |chunks|
      invariant 0 <= offset && offset % RAG_EMBEDDING_BATCH_SIZE == 0
      invariant completedChunks == if offset < |chunks| then offset else |chunks|
      invariant es <= es' && Mirrors(Run(es'), store, index) && Run(es').store == Run(es).store
      invariant WorkerAt(Run(es'), w) == WorkerAt(Run(es), w).(task := Upserting(job, doc, completedChunks))
      invariant store.jobs == old(store.jobs)
      decreases |chunks| - offset
    {
      if left == 0 { return false, false, es'; }   // the embedding call throws
      left := left - 1;
      ok, left, completedChunks, es' := UpsertEmbeddingBatch(index, job, doc, chunks, offset, left, w, es');
      if !ok { return false, false, es'; }
      offset := offset + RAG_EMBEDDING_BATCH_SIZE;
    }
    if left == 0 { return false, false, es'; }
    PersistRuns(es', w, job, doc);
    store.ReplaceDocumentChunks(doc.user, doc.id, chunks, Some((doc.version, doc.hash)));
    es' := es' + [Persist(w)];
    ok := true;
  }

  // ----- the job loop -----

  lemma LoadRuns(es: seq<Event>, w: nat, job: Job)
    requires WorkerAt(Run(es), w).task == Ready(job) && job.kind.IndexMarkdown?
    ensures var s, t := Run(es), Run(es + [Load(w)]);
      && t.points == s.points && t.store == s.store && UniqueIds(s.store)
      && WorkerAt(t, w) == WorkerAt(s, w).(task :=
           if SourceIsCurrent(s.store, job) then Clearing(job, Lookup(s.store, job.user, job.doc)) else Done(job))
  {
    RunExtends(es, Load(w));
    RunIsUnambiguous(es);
  }

  lemma PurgeRuns(es: seq<Event>, w: nat, job: Job)
    requires WorkerAt(Run(es), w).task == Ready(job) && job.kind.DeleteMarkdown?
    ensures var s, t := Run(es), Run(es + [Purge(w)]);
      && t.points == s.points - PointsOf(s.points, job.user, job.doc) && t.store == s.store
      && WorkerAt(t, w) == WorkerAt(s, w).(task := Purged(job))
  {
    RunExtends(es, Purge(w));
  }

  lemma PurgeRowsRuns(es: seq<Event>, w: nat, job: Job)
    requires WorkerAt(Run(es), w).task == Purged(job)
    ensures var s, t := Run(es), Run(es + [PurgeRows(w)]);
      && t.points == s.points && UniqueIds(s.store)
      && t.store == ReplaceDocumentChunks(s.store, job.user, job.doc, [], None)
      && WorkerAt(t, w) == WorkerAt(s, w).(task := Done(job))
  {
    RunExtends(es, PurgeRows(w));
    RunIsUnambiguous(es);
  }

  /** The body of the try block, up to the completion of the job. */
  method WorkOnJob(store: M.MarkdownStore, index: VectorIndex, job: Job, calls: nat, ghost w: nat, ghost es: seq<Event>)
    returns (ok: bool, fatal: bool, indexed: bool, ghost es': seq<Event>)
    requires Mirrors(Run(es), store, index) && WorkerAt(Run(es), w).task == Ready(job)
    modifies store, index
    ensures es <= es' && Mirrors(Run(es'), store, index)
    ensures WorkerAt(Run(es'), w).queue == WorkerAt(Run(es), w).queue
    ensures ok ==> WorkerAt(Run(es'), w).task == Done(job)
    ensures !ok ==> !WorkerAt(Run(es'), w).task.Idle? && WorkerAt(Run(es'), w).task.job == job
    ensures fatal ==> !ok
    ensures store.jobs == old(store.jobs)
    ensures indexed ==> ok && job.kind.IndexMarkdown?
  {
    hide Run, WorkerAt, PointsOf;
    ok, fatal, indexed, es' := false, false, false, es;
    if calls == 0 { return; }
    if job.kind.DeleteMarkdown? {
      index.DeletePointsByDocumentId(job.user, job.doc);
      PurgeRuns(es', w, job);
      es' := es' + [Purge(w)];
      if calls == 1 { return; }
      PurgeRowsRuns(es', w, job);
      store.ReplaceDocumentChunks(job.user, job.doc, [], None);
      es' := es' + [PurgeRows(w)];
      ok := true;
      return;
    }
    LoadRuns(es', w, job);
    var source := store.FindById(job.user, job.doc);
    es' := es' + [Load(w)];
    if source.None? || source.value.hash != job.hash || source.value.version != job.version {
      ok := true;
      return;
    }
    ok, fatal, es' := IndexMarkdownDocument(store, index, job, source.value, calls - 1, w, es');
    indexed := ok;
  }

  lemma ClaimRuns(es: seq<Event>, w: nat, limit: nat, now: int, at: int)
    requires WorkerAt(Run(es), w) == IDLE
    ensures var s, t := Run(es), Run(es + [Claim(w, limit, now, at)]);
      var (rows, claimed) := ClaimUpTo(s.store.jobs, |s.store.jobs|, limit, now, at);
      t.points == s.points && t.store == s.store.(jobs := rows) && WorkerAt(t, w) == Worker(claimed, Idle)
  {
    RunExtends(es, Claim(w, limit, now, at));
  }

  lemma RunRowIds(es: seq<Event>)
    ensures forall i :: 0 <= i < |Run(es).store.jobs| ==> Run(es).store.jobs[i].id == i
  {
    RunKeeps(es);
  }

  lemma TakeRuns(es: seq<Event>, w: nat)
    requires WorkerAt(Run(es), w).queue != [] && WorkerAt(Run(es), w).task == Idle
    ensures var s, t := Run(es), Run(es + [Take(w)]); var me := WorkerAt(s, w); var job := me.queue[0];
      && t.points == s.points
      && (if job.attempts > MAX_RAG_JOB_ATTEMPTS then
           t.store == s.store.(jobs := SetStatus(s.store.jobs, job.id, Dead)) && WorkerAt(t, w) == Worker(me.queue[1..], Idle)
         else t.store == s.store && WorkerAt(t, w) == Worker(me.queue[1..], Ready(job)))
  {
    RunExtends(es, Take(w));
  }

  lemma CompleteRuns(es: seq<Event>, w: nat, job: Job)
    requires WorkerAt(Run(es), w).task == Done(job)
    ensures var s, t := Run(es), Run(es + [Complete(w)]);
      && t.points == s.points && t.store == s.store.(jobs := SetStatus(s.store.jobs, job.id, Completed))
      && WorkerAt(t, w) == WorkerAt(s, w).(task := Idle)
  {
    RunExtends(es, Complete(w));
  }

  lemma FailRuns(es: seq<Event>, w: nat, job: Job, retryable: bool, retryAt: int)
    requires !WorkerAt(Run(es), w).task.Idle? && WorkerAt(Run(es), w).task.job == job
    ensures var s, t := Run(es), Run(es + [Fail(w, retryable, {}, retryAt)]);
      && t.points == s.points && t.store == s.store.(jobs := FailedRows(s.store.jobs, job, retryable, retryAt))
      && WorkerAt(t, w) == WorkerAt(s, w).(task := Idle)
  {
    RunExtends(es, Fail(w, retryable, {}, retryAt));
  }

  datatype Outcome = Indexed | DeletedPoints | Skipped | RetryScheduled | DeadLettered

  /** What the row of a job says after its turn. */
  function StatusAfter(outcome: Outcome): JobStatus {
    match outcome
    case RetryScheduled => Pending
    case DeadLettered => Dead
    case _ => Completed
  }

  lemma QueuedRows(es: seq<Event>, w: nat)
    ensures forall j <- WorkerAt(Run(es), w).queue :: j.id < |Run(es).store.jobs|
    ensures forall i :: 0 <= i < |Run(es).store.jobs| ==> Run(es).store.jobs[i].id == i
  {
    RunKeeps(es);
    hide Run;
    var s := Run(es);
    if w in s.workers { assert WorkerOk(s.store.docs.Values, s.store, s.workers[w]); }
  }

  /** The catch block: dead-lettered, or pending again at a later time. */
  method GiveUpOrRetry(store: M.MarkdownStore, index: VectorIndex, job: Job, retryable: bool, retryAt: int, ghost w: nat, ghost es: seq<Event>)
    returns (outcome: Outcome, ghost es': seq<Event>)
    requires Mirrors(Run(es), store, index) && !WorkerAt(Run(es), w).task.Idle? && WorkerAt(Run(es), w).task.job == job
    requires job.id < |store.jobs|
    modifies store
    ensures es <= es' && Mirrors(Run(es'), store, index)
    ensures WorkerAt(Run(es'), w) == WorkerAt(Run(es), w).(task := Idle)
    ensures outcome == if retryable && job.attempts < MAX_RAG_JOB_ATTEMPTS then RetryScheduled else DeadLettered
    ensures |store.jobs| == |old(store.jobs)| && forall i :: 0 <= i < |store.jobs| && i != job.id ==> store.jobs[i] == old(store.jobs)[i]
    ensures store.jobs[job.id].status == StatusAfter(outcome)
  {
    hide Run, WorkerAt, PointsOf;
    RunRowIds(es);
    FailRuns(es, w, job, retryable, retryAt);
    es' := es + [Fail(w, retryable, {}, retryAt)];
    if !retryable || job.attempts >= MAX_RAG_JOB_ATTEMPTS {
      store.MarkRagIndexJobDead(job.id);
      outcome := DeadLettered;
    } else {
      store.FailRagIndexJob(job.id, Some(retryAt));
      outcome := RetryScheduled;
    }
  }

  method CompleteJob(store: M.MarkdownStore, index: VectorIndex, job: Job, ghost w: nat, ghost es: seq<Event>) returns (ghost es': seq<Event>)
    requires Mirrors(Run(es), store, index) && WorkerAt(Run(es), w).task == Done(job) && job.id < |store.jobs|
    modifies store
    ensures es <= es' && Mirrors(Run(es'), store, index)
    ensures WorkerAt(Run(es'), w) == WorkerAt(Run(es), w).(task := Idle)
    ensures |store.jobs| == |old(store.jobs)| && forall i :: 0 <= i < |store.jobs| && i != job.id ==> store.jobs[i] == old(store.jobs)[i]
    ensures store.jobs[job.id].status == Completed
  {
    hide Run, WorkerAt, PointsOf;
    RunRowIds(es);
    CompleteRuns(es, w, job);
    store.CompleteRagIndexJob(job.id);
    es' := es + [Complete(w)];
  }

  /** One claimed job, with its try and catch blocks. */
  method ProcessJob(store: M.MarkdownStore, index: VectorIndex, job: Job, fault: Fault, ghost w: nat, ghost es: seq<Event>)
    returns (outcome: Outcome, ghost es': seq<Event>)
    requires Mirrors(Run(es), store, index)
    requires WorkerAt(Run(es), w).queue != [] && WorkerAt(Run(es), w).queue[0] == job && WorkerAt(Run(es), w).task == Idle
    modifies store, index
    ensures es <= es' && Mirrors(Run(es'), store, index)
    ensures WorkerAt(Run(es'), w) == Worker(WorkerAt(Run(es), w).queue[1..], Idle)
    ensures job.attempts > MAX_RAG_JOB_ATTEMPTS ==> outcome == DeadLettered
    ensures outcome == RetryScheduled ==> job.attempts < MAX_RAG_JOB_ATTEMPTS && fault.retryable
    ensures outcome == Indexed ==> job.kind.IndexMarkdown?
    ensures outcome == DeletedPoints ==> job.kind.DeleteMarkdown?
    ensures |store.jobs| == |old(store.jobs)| && forall i :: 0 <= i < |store.jobs| && i != job.id ==> store.jobs[i] == old(store.jobs)[i]
    ensures job.id < |store.jobs| && store.jobs[job.id].status == StatusAfter(outcome)
  {
    QueuedRows(es, w);
    assert job in WorkerAt(Run(es), w).queue;
    hide Run, WorkerAt, PointsOf;
    TakeRuns(es, w);
    es' := es + [Take(w)];
    if job.attempts > MAX_RAG_JOB_ATTEMPTS {
      store.MarkRagIndexJobDead(job.id);
      return DeadLettered, es';
    }
    var ok, fatal, indexed;
    ok, fatal, indexed, es' := WorkOnJob(store, index, job, fault.calls, w, es');
    if ok {
      es' := CompleteJob(store, index, job, w, es');
      outcome := if indexed then Indexed else if job.kind.DeleteMarkdown? then DeletedPoints else Skipped;
      return;
    }
    outcome, es' := GiveUpOrRetry(store, index, job, fault.retryable && !fatal, fault.retryAt, w, es');
  }

  function Tally(outcomes: seq<Outcome>, outcome: Outcome): nat {
    if outcomes == [] then 0
    else Tally(outcomes[..|outcomes| - 1], outcome) + if outcomes[|outcomes| - 1] == outcome then 1 else 0
  }

  lemma TallyMore(outcomes: seq<Outcome>, last: Outcome, outcome: Outcome)
    ensures Tally(outcomes + [last], outcome) == Tally(outcomes, outcome) + if last == outcome then 1 else 0
  {
    assert (outcomes + [last])[..|outcomes|] == outcomes;
  }

  predicate Tallied(counts: Counts, outcomes: seq<Outcome>) {
    && counts.indexed == Tally(outcomes, Indexed) && counts.deleted == Tally(outcomes, DeletedPoints)
    && counts.failed == Tally(outcomes, RetryScheduled) && counts.dead == Tally(outcomes, DeadLettered)
    && counts.indexed + counts.deleted + counts.failed + counts.dead + Tally(outcomes, Skipped) == |outcomes|
  }

  function PlusOne(counts: Counts, outcome: Outcome): Counts {
    match outcome
    case Indexed => counts.(indexed := counts.indexed + 1)
    case DeletedPoints => counts.(deleted := counts.deleted + 1)
    case RetryScheduled => counts.(failed := counts.failed + 1)
    case DeadLettered => counts.(dead := counts.dead + 1)
    case Skipped => counts
  }

  lemma TalliedMore(counts: Counts, outcomes: seq<Outcome>, last: Outcome)
    requires Tallied(counts, outcomes)
    ensures Tallied(PlusOne(counts, last), outcomes + [last])
  {
    hide Tally;
    TallyMore(outcomes, last, Indexed);
    TallyMore(outcomes, last, DeletedPoints);
    TallyMore(outcomes, last, Skipped);
    TallyMore(outcomes, last, RetryScheduled);
    TallyMore(outcomes, last, DeadLettered);
  }

  lemma ClaimedAscend(es: seq<Event>, limit: nat, now: int, at: int)
    ensures var claimed := ClaimUpTo(Run(es).store.jobs, |Run(es).store.jobs|, limit, now, at).1;
      forall a, b :: 0 <= a < b < |claimed| ==> claimed[a].id < claimed[b].id
  {
    RunRowIds(es);
    hide Run;
    RagSingleWorker.ClaimedCopies(Run(es).store.jobs, |Run(es).store.jobs|, limit, now, at);
  }

  /** The rows of the jobs that had their turn say what came of them. */
  predicate RowsSay(rows: seq<Job>, claimed: seq<Job>, outcomes: seq<Outcome>) {
    |outcomes| <= |claimed| && forall k :: 0 <= k < |outcomes| ==> claimed[k].id < |rows| && rows[claimed[k].id].status == StatusAfter(outcomes[k])
  }

  /**
   Claims a batch and works it off; the effect is one continuation of the run, every claimed job has
   one outcome, which its row shows at the end, and the counts are those of the outcomes.
   */
  method ProcessRagIndexJobs(store: M.MarkdownStore, index: VectorIndex, limit: nat, now: int, at: int, faults: seq<Fault>, ghost w: nat, ghost es: seq<Event>)
    returns (counts: Counts, ghost es': seq<Event>, ghost outcomes: seq<Outcome>)
    requires Mirrors(Run(es), store, index) && WorkerAt(Run(es), w) == IDLE && |faults| >= limit
    modifies store, index
    ensures es <= es' && Mirrors(Run(es'), store, index) && WorkerAt(Run(es'), w) == IDLE
    ensures var claimed := ClaimUpTo(old(store.jobs), |old(store.jobs)|, limit, now, at).1;
      |outcomes| == |claimed| == counts.claimed && RowsSay(store.jobs, claimed, outcomes)
    ensures Tallied(counts, outcomes)
  {
    hide Run, WorkerAt, Tallied, ClaimUpTo;
    ClaimRuns(es, w, limit, now, at);
    ClaimedAscend(es, limit, now, at);
    var jobs := store.ClaimRagIndexJobs(limit, now, at);
    es' := es + [Claim(w, limit, now, at)];
    counts, outcomes := Counts(|jobs|, 0, 0, 0, 0), [];
    NothingTallied(|jobs|);
    for i := 0 to |jobs|
      invariant es <= es' && Mirrors(Run(es'), store, index) && WorkerAt(Run(es'), w) == Worker(jobs[i..], Idle)
      invariant counts.claimed == |jobs| && |outcomes| == i && Tallied(counts, outcomes) && RowsSay(store.jobs, jobs, outcomes)
    {
      var outcome;
      outcome, es' := ProcessJob(store, index, jobs[i], faults[i], w, es');
      assert RowsSay(store.jobs, jobs, outcomes + [outcome]);
      TalliedMore(counts, outcomes, outcome);
      outcomes := outcomes + [outcome];
      match outcome
      case Indexed => counts := counts.(indexed := counts.indexed + 1);
      case DeletedPoints => counts := counts.(deleted := counts.deleted + 1);
      case RetryScheduled => counts := counts.(failed := counts.failed + 1);
      case DeadLettered => counts := counts.(dead := counts.dead + 1);
      case Skipped =>
    }
  }

  lemma NothingTallied(n: nat)
    ensures Tallied(Counts(n, 0, 0, 0, 0), [])
  {}
}
