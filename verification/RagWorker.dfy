/**
 The indexing protocol: store operations, index workers and crashes, interleaved at every await.

 A run is a sequence of events.  Every event is atomic, as one store call, one provider call or one
 transaction is.  A provider call that fails may have taken effect in part.
 */
module RagWorker {
  import opened Wrappers
  import opened RagStore
  import Chunking

  const MAX_RAG_JOB_ATTEMPTS := 3
  const RAG_EMBEDDING_BATCH_SIZE := 16
  const RAG_QDRANT_UPSERT_BATCH_SIZE := 8
  const MAX_RAG_SOURCE_CHARS := 250_000
  const MAX_RAG_SOURCE_SECTIONS := 400
  const MAX_RAG_SOURCE_CHUNKS := 256

  /** Where a worker stands in the job it is processing: what its next await does. */
  datatype Task =
    | Idle
    | Ready(job: Job)                            // load the source, or delete the points
    | Clearing(job: Job, doc: Doc)               // delete the document's old points
    | Upserting(job: Job, doc: Doc, done: nat)   // upsert the next batch, then persist the rows
    | Purged(job: Job)                           // delete the rows of a deleted document
    | Done(job: Job)                             // complete the job

  datatype Worker = Worker(queue: seq<Job>, task: Task)

  // History, per job, since it was created or retried by hand: how often it was claimed and started,
  // how often a claim ended with an outcome, and how often it ended with a crash.
  datatype History = History(claims: map<nat, nat>, starts: map<nat, nat>, outcomes: map<nat, nat>, crashes: map<nat, nat>)

  datatype System = System(store: Store, points: set<PointId>, workers: map<nat, Worker>, history: History)

  datatype Event =
    | Write(user: UserId, path: Path, text: Text, hash: Hash, expected: Option<nat>, now: int)
    | Remove(user: UserId, path: Path, expected: Option<nat>, now: int)
    | Move(user: UserId, order: seq<Doc>, from: Path, to: Path, now: int)
    | Reindex(user: UserId, order: seq<Doc>, prefix: Path, now: int)
    | Retry(id: nat, now: int)
    | Claim(w: nat, limit: nat, now: int, at: int)
    | Take(w: nat)
    | Load(w: nat)
    | Clear(w: nat)
    | Upsert(w: nat)
    | Persist(w: nat)
    | Purge(w: nat)
    | PurgeRows(w: nat)
    | Complete(w: nat)
    | Fail(w: nat, retryable: bool, effect: set<PointId>, retryAt: int)
    | Crash(w: nat, effect: set<PointId>)

  const EMPTY_SYSTEM := System(EMPTY_STORE, {}, map[], History(map[], map[], map[], map[]))
  const IDLE := Worker([], Idle)

  function WorkerAt(s: System, w: nat): Worker {
    if w in s.workers then s.workers[w] else IDLE
  }

  function Count(m: map<nat, nat>, id: nat): nat {
    if id in m then m[id] else 0
  }

  function Bump(m: map<nat, nat>, id: nat): map<nat, nat> {
    m[id := Count(m, id) + 1]
  }

  function BumpAll(m: map<nat, nat>, ids: set<nat>): map<nat, nat> {
    map i | i in m.Keys + ids :: if i in ids then Count(m, i) + 1 else m[i]
  }

  // ----- the provider -----

  /** The points the vector index holds for one document. */
  function PointsOf(points: set<PointId>, user: UserId, doc: nat): set<PointId> {
    set p | p in points && p.user == user && p.doc == doc
  }

  function PointIds(chunks: seq<Chunk>): set<PointId> {
    set c | c in chunks :: c.point
  }

  /** A document over one of the source limits is rejected before any provider call. */
  predicate TooLarge(d: Doc) {
    || |d.text| > MAX_RAG_SOURCE_CHARS
    || Chunking.SectionCount(d.text) > MAX_RAG_SOURCE_SECTIONS
    || |ChunksOf(d)| > MAX_RAG_SOURCE_CHUNKS
  }

  /** An embedding batch of 16 is upserted in batches of 8; neither crosses the end of the list. */
  function BatchEnd(done: nat, total: nat): (end: nat)
    requires done <= total
    ensures done <= end <= total && end <= done + RAG_QDRANT_UPSERT_BATCH_SIZE
    ensures done < total ==> done < end
  {
    var embedded := done - done % RAG_EMBEDDING_BATCH_SIZE + RAG_EMBEDDING_BATCH_SIZE;
    var limit := if embedded < total then embedded else total;
    if done + RAG_QDRANT_UPSERT_BATCH_SIZE < limit then done + RAG_QDRANT_UPSERT_BATCH_SIZE else limit
  }

  function Batch(d: Doc, done: nat): set<PointId>
    requires done <= |ChunksOf(d)|
  {
    PointIds(ChunksOf(d)[done..BatchEnd(done, |ChunksOf(d)|)])
  }

  /** What a provider call that did not report success may have done: any part of the request. */
  function PartialEffect(points: set<PointId>, t: Task, effect: set<PointId>): set<PointId> {
    match t
    case Ready(job) =>
      if job.kind.DeleteMarkdown? then points - (PointsOf(points, job.user, job.doc) * effect) else points
    case Clearing(job, doc) => points - (PointsOf(points, doc.user, doc.id) * effect)
    case Upserting(job, doc, done) =>
      if done <= |ChunksOf(doc)| then points + (Batch(doc, done) * effect) else points
    case _ => points
  }

  // ----- steps of a worker -----

  function WithWorker(s: System, w: nat, worker: Worker): System {
    s.(workers := s.workers[w := worker])
  }

  function WithTask(s: System, w: nat, task: Task): System {
    WithWorker(s, w, WorkerAt(s, w).(task := task))
  }

  function WithJobs(s: System, jobs: seq<Job>): System {
    s.(store := s.store.(jobs := jobs))
  }

  function WithOutcome(s: System, job: Job): History {
    s.history.(outcomes := Bump(s.history.outcomes, job.id))
  }

  function Ids(jobs: seq<Job>): set<nat> {
    set j | j in jobs :: j.id
  }

  function DoClaim(s: System, w: nat, limit: nat, now: int, at: int): System {
    var me := WorkerAt(s, w);
    if me.queue != [] || me.task != Idle then s
    else
      var (jobs, claimed) := ClaimUpTo(s.store.jobs, |s.store.jobs|, limit, now, at);
      WithWorker(WithJobs(s, jobs), w, Worker(claimed, Idle)).(history := s.history.(claims := BumpAll(s.history.claims, Ids(claimed))))
  }

  /** Starts the next job of the batch, or dead-letters it when it was claimed too often. */
  function DoTake(s: System, w: nat): System {
    var me := WorkerAt(s, w);
    if me.queue == [] || me.task != Idle then s
    else
      var job := me.queue[0];
      if job.attempts > MAX_RAG_JOB_ATTEMPTS then
        WithWorker(WithJobs(s, SetStatus(s.store.jobs, job.id, Dead)), w, Worker(me.queue[1..], Idle))
          .(history := WithOutcome(s, job))
      else
        WithWorker(s, w, Worker(me.queue[1..], Ready(job))).(history := s.history.(starts := Bump(s.history.starts, job.id)))
  }

  ghost predicate SourceIsCurrent(s: Store, job: Job) {
    && IsLive(s, job.user, job.doc)
    && Lookup(s, job.user, job.doc).version == job.version
    && Lookup(s, job.user, job.doc).hash == job.hash
  }

  /** Reads the source once; a job for a version that is no longer current is skipped. */
  ghost function DoLoad(s: System, w: nat): System {
    var t := WorkerAt(s, w).task;
    if !(t.Ready? && t.job.kind.IndexMarkdown?) then s
    else if SourceIsCurrent(s.store, t.job) then
      WithTask(s, w, Clearing(t.job, Lookup(s.store, t.job.user, t.job.doc)))
    else
      WithTask(s, w, Done(t.job))
  }

  function DoClear(s: System, w: nat): System {
    var t := WorkerAt(s, w).task;
    if !(t.Clearing? && !TooLarge(t.doc)) then s
    else WithTask(s, w, Upserting(t.job, t.doc, 0)).(points := s.points - PointsOf(s.points, t.doc.user, t.doc.id))
  }

  function DoUpsert(s: System, w: nat): System {
    var t := WorkerAt(s, w).task;
    if !(t.Upserting? && t.done < |ChunksOf(t.doc)|) then s
    else
      WithTask(s, w, t.(done := BatchEnd(t.done, |ChunksOf(t.doc)|))).(points := s.points + Batch(t.doc, t.done))
  }

  ghost function DoPersist(s: System, w: nat): System {
    var t := WorkerAt(s, w).task;
    if !(t.Upserting? && t.done == |ChunksOf(t.doc)|) then s
    else
      WithTask(s, w, Done(t.job)).(store :=
        ReplaceDocumentChunks(s.store, t.doc.user, t.doc.id, ChunksOf(t.doc), Some((t.doc.version, t.doc.hash))))
  }

  function DoPurge(s: System, w: nat): System {
    var t := WorkerAt(s, w).task;
    if !(t.Ready? && t.job.kind.DeleteMarkdown?) then s
    else WithTask(s, w, Purged(t.job)).(points := s.points - PointsOf(s.points, t.job.user, t.job.doc))
  }

  ghost function DoPurgeRows(s: System, w: nat): System {
    var t := WorkerAt(s, w).task;
    if !t.Purged? then s
    else WithTask(s, w, Done(t.job)).(store := ReplaceDocumentChunks(s.store, t.job.user, t.job.doc, [], None))
  }

  function DoComplete(s: System, w: nat): System {
    var t := WorkerAt(s, w).task;
    if !t.Done? then s
    else
      WithTask(WithJobs(s, SetStatus(s.store.jobs, t.job.id, Completed)), w, Idle).(history := WithOutcome(s, t.job))
  }

  function FailedRows(jobs: seq<Job>, job: Job, retryable: bool, retryAt: int): (r: seq<Job>)
    ensures |r| == |jobs|
  {
    if !retryable || job.attempts >= MAX_RAG_JOB_ATTEMPTS then SetStatus(jobs, job.id, Dead)
    else FailRagIndexJob(jobs, job.id, Some(retryAt))
  }

  /** Any await of a job may throw: the job is retried later or dead-lettered. */
  function DoFail(s: System, w: nat, retryable: bool, effect: set<PointId>, retryAt: int): System {
    var t := WorkerAt(s, w).task;
    if t.Idle? then s
    else
      WithTask(WithJobs(s, FailedRows(s.store.jobs, t.job, retryable, retryAt)), w, Idle)
        .(points := PartialEffect(s.points, t, effect), history := WithOutcome(s, t.job))
  }

  function Held(worker: Worker): seq<Job> {
    if worker.task.Idle? then worker.queue else [worker.task.job] + worker.queue
  }

  /** The process dies: everything it held in memory is gone, the rows stay claimed. */
  function DoCrash(s: System, w: nat, effect: set<PointId>): System {
    var me := WorkerAt(s, w);
    WithWorker(s, w, IDLE)
      .(points := PartialEffect(s.points, me.task, effect),
        history := s.history.(crashes := BumpAll(s.history.crashes, Ids(Held(me)))))
  }

  function Forget(h: History, id: nat): History {
    History(h.claims - {id}, h.starts - {id}, h.outcomes - {id}, h.crashes - {id})
  }

  ghost function DoRetry(s: System, id: nat, now: int): System {
    if !RetryApplies(s.store.jobs, id) then s
    else
      WithJobs(s, RetryRagIndexJob(s.store.jobs, id, now)).(history := Forget(s.history, id))
  }

  ghost function Step(s: System, e: Event): System {
    match e
    case Write(user, path, text, hash, expected, now) =>
      s.(store := WriteMarkdown(s.store, user, path, text, hash, expected, now).0)
    case Remove(user, path, expected, now) =>
      s.(store := DeleteMarkdownPath(s.store, user, path, expected, now).0)
    case Move(user, order, from, to, now) =>
      if Enumerates(order, s.store, user, p => InTree(p, from)) && (forall d <- order :: InTree(d.path, from)) then
        s.(store := MoveDocs(s.store, order, from, to, now))
      else s
    case Reindex(user, order, prefix, now) =>
      if Enumerates(order, s.store, user, p => MatchesPrefix(p, prefix)) then
        s.(store := PushJobs(s.store, order, now))
      else s
    case Retry(id, now) => DoRetry(s, id, now)
    case Claim(w, limit, now, at) => DoClaim(s, w, limit, now, at)
    case Take(w) => DoTake(s, w)
    case Load(w) => DoLoad(s, w)
    case Clear(w) => DoClear(s, w)
    case Upsert(w) => DoUpsert(s, w)
    case Persist(w) => DoPersist(s, w)
    case Purge(w) => DoPurge(s, w)
    case PurgeRows(w) => DoPurgeRows(s, w)
    case Complete(w) => DoComplete(s, w)
    case Fail(w, retryable, effect, retryAt) => DoFail(s, w, retryable, effect, retryAt)
    case Crash(w, effect) => DoCrash(s, w, effect)
  }

  /** The state after a run that starts with an empty store. */
  ghost function Run(es: seq<Event>): System
    decreases |es|, 1
  {
    if es == [] then EMPTY_SYSTEM else AfterLast(es)
  }

  ghost function AfterLast(es: seq<Event>): System
    requires es != []
    decreases |es|, 0
  {
    Step(Run(es[..|es| - 1]), es[|es| - 1])
  }
}
