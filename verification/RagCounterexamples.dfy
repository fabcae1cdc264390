/** Concrete runs that show what the theorems about the index cannot promise. */
module RagCounterexamples {
  import opened Wrappers
  import opened RagStore
  import Chunking
  import ChunkingTheorems
  import opened RagWorker
  import opened RagInvariants
  import opened RagSingleWorker
  import opened RagIndexer
  import RagRuns
  import A = RagAttempts

  const LEASE := CLAIM_LEASE_MS + 1

  /** A job whose first `n` attempts fail and are to be tried again. */
  function Failing(text: Text, n: nat): seq<Event> {
    if n == 0 then [Write("u", "/a.md", text, "h", None, 0)]
    else Failing(text, n - 1) + [Claim(0, 1, n * LEASE, n * LEASE), Take(0), Fail(0, true, {}, n * LEASE)]
  }

  /** After two failures a worker dies each time it has claimed the job. */
  function Dying(text: Text, c: nat): seq<Event> {
    if c == 0 then Failing(text, 2)
    else Dying(text, c - 1) + [Claim(0, 1, (c + 2) * LEASE, (c + 2) * LEASE), Crash(0, {})]
  }

  /** One job, claimed `n` times, `c` of them by a worker that died; it can be claimed again. */
  predicate Left(s: System, n: nat, c: nat) {
    && |s.store.jobs| == 1 && s.store.jobs[0].id == 0 && WorkerAt(s, 0) == IDLE
    && Count(s.history.claims, 0) == s.store.jobs[0].attempts == n && Count(s.history.crashes, 0) == c
    && Claimable(s.store.jobs[0], (n + 1) * LEASE)
  }

  lemma ClaimOne(jobs: seq<Job>, now: int)
    requires |jobs| == 1 && Claimable(jobs[0], now)
    ensures ClaimUpTo(jobs, 1, 1, now, now) == ([ClaimedRow(jobs[0], now)], [ClaimedRow(jobs[0], now)])
  {
    var row := ClaimedRow(jobs[0], now);
    assert ClaimUpTo(jobs, 0, 1, now, now) == (jobs, []);
    assert ClaimUpTo(jobs, 1, 1, now, now) == (jobs[0 := row], [] + [row]);
    assert jobs[0 := row] == [row] && [] + [row] == [row];
  }

  /** One more claim of the job. */
  lemma ClaimAgain(s: System, n: nat, c: nat)
    requires Left(s, n, c)
    ensures var at := (n + 1) * LEASE; var t := DoClaim(s, 0, 1, at, at); var row := ClaimedRow(s.store.jobs[0], at);
      && t.store.jobs == [row] && WorkerAt(t, 0) == Worker([row], Idle)
      && Count(t.history.claims, 0) == n + 1 && Count(t.history.crashes, 0) == c
  {
    var at := (n + 1) * LEASE;
    ClaimOne(s.store.jobs, at);
    assert ClaimedRow(s.store.jobs[0], at) in [ClaimedRow(s.store.jobs[0], at)];
  }

  lemma DieAgain(s: System, n: nat, c: nat)
    requires Left(s, n, c)
    ensures Left(DoCrash(DoClaim(s, 0, 1, (n + 1) * LEASE, (n + 1) * LEASE), 0, {}), n + 1, c + 1)
  {
    var at := (n + 1) * LEASE;
    var row, t := ClaimedRow(s.store.jobs[0], at), DoClaim(s, 0, 1, at, at);
    ClaimAgain(s, n, c);
    hide DoClaim;
    assert row in [row] && 0 in Ids(Held(WorkerAt(t, 0)));
  }

  /** The worker takes the claimed job; rows and counts of claims and crashes stay. */
  lemma TakeClaimed(t: System, row: Job)
    requires t.store.jobs == [row] && WorkerAt(t, 0) == Worker([row], Idle) && row.attempts <= MAX_RAG_JOB_ATTEMPTS
    ensures var u := DoTake(t, 0);
      u.store == t.store && WorkerAt(u, 0) == Worker([], Ready(row)) && u.history.claims == t.history.claims && u.history.crashes == t.history.crashes
  {
    assert [row][1..] == [];
  }

  lemma FailTaken(u: System, row: Job, at: int)
    requires u.store.jobs == [row] && row.id == 0 && WorkerAt(u, 0) == Worker([], Ready(row)) && row.attempts < MAX_RAG_JOB_ATTEMPTS
    ensures var v := DoFail(u, 0, true, {}, at);
      && v.store.jobs == [row.(status := Pending, availableAt := at)] && WorkerAt(v, 0) == IDLE
      && v.history.claims == u.history.claims && v.history.crashes == u.history.crashes
  {
    hide ChunksOf, PartialEffect;
    assert [row][0 := row.(status := Pending, availableAt := at)] == [row.(status := Pending, availableAt := at)];
  }

  lemma FailAgain(s: System, n: nat)
    requires Left(s, n, 0) && n < 2
    ensures Left(DoFail(DoTake(DoClaim(s, 0, 1, (n + 1) * LEASE, (n + 1) * LEASE), 0), 0, true, {}, (n + 1) * LEASE), n + 1, 0)
  {
    hide DoClaim, DoTake, DoFail;
    var at := (n + 1) * LEASE;
    var row, t := ClaimedRow(s.store.jobs[0], at), DoClaim(s, 0, 1, at, at);
    ClaimAgain(s, n, 0);
    TakeClaimed(t, row);
    FailTaken(DoTake(t, 0), row, at);
  }

  lemma FirstWrite(text: Text)
    ensures Left(Run([Write("u", "/a.md", text, "h", None, 0)]), 0, 0)
  {
    var e := Write("u", "/a.md", text, "h", None, 0);
    RunExtends([], e);
    assert [] + [e] == [e];
  }

  lemma OneMoreFailure(es: seq<Event>, n: nat)
    requires Left(Run(es), n, 0) && n < 2 && OneWorker(es)
    ensures var at := (n + 1) * LEASE; var more := es + [Claim(0, 1, at, at), Take(0), Fail(0, true, {}, at)];
      OneWorker(more) && Left(Run(more), n + 1, 0)
  {
    hide Left, Run, DoClaim, DoTake, DoFail;
    var at := (n + 1) * LEASE;
    var claim, fail := Claim(0, 1, at, at), Fail(0, true, {}, at);
    FailAgain(Run(es), n);
    RunExtends(es, claim);
    RunExtends(es + [claim], Take(0));
    RunExtends(es + [claim] + [Take(0)], fail);
    assert es + [claim, Take(0), fail] == es + [claim] + [Take(0)] + [fail];
  }

  lemma OneMoreCrash(es: seq<Event>, n: nat, c: nat)
    requires Left(Run(es), n, c) && OneWorker(es)
    ensures var at := (n + 1) * LEASE; var more := es + [Claim(0, 1, at, at), Crash(0, {})];
      OneWorker(more) && Left(Run(more), n + 1, c + 1)
  {
    hide Left, Run, DoClaim, DoCrash;
    var claim := Claim(0, 1, (n + 1) * LEASE, (n + 1) * LEASE);
    DieAgain(Run(es), n, c);
    RunExtends(es, claim);
    RunExtends(es + [claim], Crash(0, {}));
    assert es + [claim, Crash(0, {})] == es + [claim] + [Crash(0, {})];
  }

  lemma {:induction false} FailingLeaves(text: Text, n: nat)
    requires n <= 2
    ensures OneWorker(Failing(text, n)) && Left(Run(Failing(text, n)), n, 0)
  {
    hide Left, Run;
    if n == 0 {
      FirstWrite(text);
    } else {
      FailingLeaves(text, n - 1);
      OneMoreFailure(Failing(text, n - 1), n - 1);
    }
  }

  lemma {:induction false} DyingLeaves(text: Text, c: nat)
    ensures OneWorker(Dying(text, c)) && Left(Run(Dying(text, c)), c + 2, c)
  {
    hide Left, Run, Failing;
    if c == 0 {
      FailingLeaves(text, 2);
    } else {
      DyingLeaves(text, c - 1);
      OneMoreCrash(Dying(text, c - 1), c + 1, c - 1);
    }
  }

  /** The bound on claims is reached: two failures, then `c` crashes, then one more claim are `3 + c` claims. */
  lemma ClaimsReachTheBound(text: Text, c: nat)
    ensures var es := Dying(text, c) + [Claim(0, 1, (c + 3) * LEASE, (c + 3) * LEASE)]; var h := Run(es).history;
      OneWorker(es) && |Run(es).store.jobs| == 1 && Count(h.crashes, 0) == c && Count(h.claims, 0) == MAX_RAG_JOB_ATTEMPTS + c
  {
    DyingLeaves(text, c);
    ClaimAgain(Run(Dying(text, c)), c + 2, c);
    hide Left, Run, DoClaim;
    RunExtends(Dying(text, c), Claim(0, 1, (c + 3) * LEASE, (c + 3) * LEASE));
  }

  /** Four claims are enough for every job in every run, as long as it has at most `c` crashes. */
  ghost predicate FourClaimsSuffice(c: nat) {
    forall es, id: nat :: OneWorker(es) && id < |Run(es).store.jobs| && Count(Run(es).history.crashes, id) <= c ==>
      Count(Run(es).history.claims, id) <= 4
  }

  /** So the promise of at most four claims holds exactly when a worker dies at most once with the job. */
  lemma FourClaimsIff(c: nat)
    ensures FourClaimsSuffice(c) <==> c <= 1
  {
    hide Run, OneWorker, Dying;
    if c <= 1 {
      forall es, id: nat | OneWorker(es) && id < |Run(es).store.jobs| && Count(Run(es).history.crashes, id) <= c
        ensures Count(Run(es).history.claims, id) <= 4
      {
        A.BoundedAttempts(es, id);
      }
    } else {
      ClaimsReachTheBound([], 2);
      assert !FourClaimsSuffice(c);
    }
  }

  // ----- two workers -----

  function FirstVersion(text: Text): Doc {
    Doc(0, "u", "/a.md", text, "h1", 1, false)
  }

  function SecondVersion(text: Text): Doc {
    Doc(0, "u", "/a.md", text, "h2", 2, false)
  }

  function FirstRow(): Job {
    Job(0, "u", 0, 1, "h1", IndexMarkdown, Claimed, 1, 0, Some(0))
  }

  function SecondRow(): Job {
    Job(1, "u", 0, 2, "h2", IndexMarkdown, Pending, 0, 0, None)
  }

  /** The first worker reads version 1 and stops; version 2 is written. */
  function SlowReader(first: Text, second: Text): seq<Event> {
    [Write("u", "/a.md", first, "h1", None, 0), Claim(0, 1, 0, 0), Take(0), Load(0)] + [Write("u", "/a.md", second, "h2", None, 0)]
  }

  /** A worker that has claimed one job takes it and is not disturbed. */
  function OneJob(w: nat): seq<Event> {
    [Take(w), Load(w), Clear(w), Upsert(w), Persist(w), Complete(w)]
  }

  /** The second worker indexes version 2, undisturbed. */
  function FastWorker(first: Text, second: Text): seq<Event> {
    SlowReader(first, second) + [Claim(1, 1, 0, 0)] + OneJob(1)
  }

  // ----- a job that is not disturbed -----

  /** The one document and the rows, where worker `w` stands, and where another one does. */
  ghost predicate Stands(s: System, d: Doc, jobs: seq<Job>, w: nat, worker: Worker, v: nat, other: Worker) {
    && s.store.docs == map[(d.user, d.path) := d] && s.store.jobs == jobs
    && WorkerAt(s, w) == worker && WorkerAt(s, v) == other && w in s.workers && v != w
  }

  /** The job asks for this document, which is small enough for one batch. */
  predicate Wants(job: Job, d: Doc, jobs: seq<Job>) {
    && job.kind.IndexMarkdown? && job.user == d.user && job.doc == d.id && job.version == d.version && job.hash == d.hash
    && job.attempts <= MAX_RAG_JOB_ATTEMPTS && job.id < |jobs|
    && !TooLarge(d) && 1 <= |ChunksOf(d)| <= RAG_QDRANT_UPSERT_BATCH_SIZE
  }

  lemma Takes(s: System, d: Doc, jobs: seq<Job>, w: nat, job: Job, v: nat, other: Worker)
    requires Stands(s, d, jobs, w, Worker([job], Idle), v, other) && job.attempts <= MAX_RAG_JOB_ATTEMPTS
    ensures Stands(DoTake(s, w), d, jobs, w, Worker([], Ready(job)), v, other)
  {
    assert [job][1..] == [];
  }

  lemma Loads(s: System, d: Doc, jobs: seq<Job>, w: nat, job: Job, v: nat, other: Worker)
    requires Stands(s, d, jobs, w, Worker([], Ready(job)), v, other)
    requires job.kind.IndexMarkdown? && job.user == d.user && job.doc == d.id && job.version == d.version && job.hash == d.hash
    ensures Stands(DoLoad(s, w), d, jobs, w, Worker([], Clearing(job, d)), v, other)
  {
    assert s.store.docs[(d.user, d.path)] == d;
    assert IsLive(s.store, d.user, d.id) && Lookup(s.store, d.user, d.id) == d;
  }

  lemma Upserts(s: System, d: Doc, jobs: seq<Job>, w: nat, job: Job, v: nat, other: Worker)
    requires Stands(s, d, jobs, w, Worker([], Clearing(job, d)), v, other)
    requires !TooLarge(d) && 1 <= |ChunksOf(d)| <= RAG_QDRANT_UPSERT_BATCH_SIZE
    ensures Stands(DoUpsert(DoClear(s, w), w), d, jobs, w, Worker([], Upserting(job, d, |ChunksOf(d)|)), v, other)
  {
    hide ChunksOf, TooLarge, PointIds, PointsOf;
    assert WorkerAt(DoClear(s, w), w) == Worker([], Upserting(job, d, 0));
  }

  lemma PersistOnly(s: Store, d: Doc, t: Store)
    requires s.docs == map[(d.user, d.path) := d]
    requires t == ReplaceDocumentChunks(s, d.user, d.id, ChunksOf(d), Some((d.version, d.hash)))
    ensures t.docs == map[(d.user, d.path) := d.(indexed := true)] && t.jobs == s.jobs
  {
    hide Chunking.Pieces, Chunking.SectionCount;
    assert s.docs[(d.user, d.path)] == d;
    assert IsLive(s, d.user, d.id) && Lookup(s, d.user, d.id) == d;
  }

  lemma Completes(s: System, d: Doc, jobs: seq<Job>, w: nat, job: Job, v: nat, other: Worker)
    requires Stands(s, d, jobs, w, Worker([], Upserting(job, d, |ChunksOf(d)|)), v, other) && job.id < |jobs|
    ensures Stands(DoComplete(DoPersist(s, w), w), d.(indexed := true), jobs[job.id := jobs[job.id].(status := Completed)], w, IDLE, v, other)
  {
    PersistOnly(s.store, d, DoPersist(s, w).store);
    hide ReplaceDocumentChunks, ChunksOf;
  }

  /** Six steps, and the document is indexed and its job completed. */
  lemma Indexes(es: seq<Event>, d: Doc, jobs: seq<Job>, w: nat, job: Job, v: nat, other: Worker)
    requires Stands(Run(es), d, jobs, w, Worker([job], Idle), v, other) && Wants(job, d, jobs)
    ensures Stands(Run(es + OneJob(w)), d.(indexed := true), jobs[job.id := jobs[job.id].(status := Completed)], w, IDLE, v, other)
  {
    var s := Run(es);
    SixSteps(es, w);
    hide Run, Stands, TooLarge, ChunksOf, DoTake, DoLoad, DoClear, DoUpsert, DoPersist, DoComplete;
    var loaded := DoLoad(DoTake(s, w), w);
    Takes(s, d, jobs, w, job, v, other);
    Loads(DoTake(s, w), d, jobs, w, job, v, other);
    Upserts(loaded, d, jobs, w, job, v, other);
    Completes(DoUpsert(DoClear(loaded, w), w), d, jobs, w, job, v, other);
  }

  lemma ThreeSteps(es: seq<Event>, a: Event, b: Event, c: Event)
    ensures Run(es + [a, b, c]) == Step(Step(Step(Run(es), a), b), c)
  {
    hide Run, Step;
    RunExtends(es, a);
    RunExtends(es + [a], b);
    RunExtends(es + [a] + [b], c);
    assert es + [a] + [b] + [c] == es + [a, b, c];
  }

  lemma SixSteps(es: seq<Event>, w: nat)
    ensures Run(es + OneJob(w)) == DoComplete(DoPersist(DoUpsert(DoClear(DoLoad(DoTake(Run(es), w), w), w), w), w), w)
  {
    hide Run, DoTake, DoLoad, DoClear, DoUpsert, DoPersist, DoComplete;
    ThreeSteps(es, Take(w), Load(w), Clear(w));
    ThreeSteps(es + [Take(w), Load(w), Clear(w)], Upsert(w), Persist(w), Complete(w));
    assert es + OneJob(w) == es + [Take(w), Load(w), Clear(w)] + [Upsert(w), Persist(w), Complete(w)];
  }

  // ----- the run with two workers -----

  lemma AfterFirstClaim(first: Text)
    ensures var s := Run([Write("u", "/a.md", first, "h1", None, 0), Claim(0, 1, 0, 0)]);
      && s.store == Store(map[("u", "/a.md") := FirstVersion(first)], [FirstRow()], map[], 1) && s.points == {}
      && WorkerAt(s, 0) == Worker([FirstRow()], Idle) && 1 !in s.workers
  {
    var write, claim := Write("u", "/a.md", first, "h1", None, 0), Claim(0, 1, 0, 0);
    RunExtends([], write);
    assert [] + [write] == [write];
    RunExtends([write], claim);
    assert [write] + [claim] == [write, claim];
    ClaimOne(Run([write]).store.jobs, 0);
  }

  lemma AfterFirstRead(first: Text)
    ensures var s := Run([Write("u", "/a.md", first, "h1", None, 0), Claim(0, 1, 0, 0), Take(0), Load(0)]);
      && s.store == Store(map[("u", "/a.md") := FirstVersion(first)], [FirstRow()], map[], 1) && s.points == {}
      && WorkerAt(s, 0) == Worker([], Clearing(FirstRow(), FirstVersion(first))) && 1 !in s.workers
  {
    var es := [Write("u", "/a.md", first, "h1", None, 0), Claim(0, 1, 0, 0)];
    AfterFirstClaim(first);
    hide Run;
    RunExtends(es, Take(0));
    var s := Run(es + [Take(0)]);
    assert WorkerAt(s, 0) == Worker([], Ready(FirstRow()));
    RunExtends(es + [Take(0)], Load(0));
    assert es + [Take(0)] + [Load(0)] == [Write("u", "/a.md", first, "h1", None, 0), Claim(0, 1, 0, 0), Take(0), Load(0)];
    assert s.store.docs[("u", "/a.md")] == FirstVersion(first);
    assert IsLive(s.store, "u", 0) && Lookup(s.store, "u", 0) == FirstVersion(first);
  }

  /** Version 2 is written while the first worker holds version 1. */
  lemma AfterSecondWrite(first: Text, second: Text)
    ensures var s := Run(SlowReader(first, second));
      && s.store.docs == map[("u", "/a.md") := SecondVersion(second)] && s.store.jobs == [FirstRow(), SecondRow()]
      && s.points == {} && s.store.chunks == map[]
      && WorkerAt(s, 0) == Worker([], Clearing(FirstRow(), FirstVersion(first))) && 1 !in s.workers
  {
    AfterFirstRead(first);
    RunExtends([Write("u", "/a.md", first, "h1", None, 0), Claim(0, 1, 0, 0), Take(0), Load(0)], Write("u", "/a.md", second, "h2", None, 0));
  }

  /** The second worker's batch: only the new row is due. */
  lemma ClaimSecond()
    ensures ClaimUpTo([FirstRow(), SecondRow()], 2, 1, 0, 0)
      == ([FirstRow(), ClaimedRow(SecondRow(), 0)], [ClaimedRow(SecondRow(), 0)])
  {
    var rows := [FirstRow(), SecondRow()];
    assert ClaimUpTo(rows, 0, 1, 0, 0) == (rows, []);
    assert ClaimUpTo(rows, 1, 1, 0, 0) == (rows, []);
    var row := ClaimedRow(SecondRow(), 0);
    assert ClaimUpTo(rows, 2, 1, 0, 0) == (rows[1 := row], [] + [row]);
    assert rows[1 := row] == [FirstRow(), row] && [] + [row] == [row];
  }

  lemma AfterSecondClaim(first: Text, second: Text)
    ensures Stands(Run(SlowReader(first, second) + [Claim(1, 1, 0, 0)]), SecondVersion(second), [FirstRow(), ClaimedRow(SecondRow(), 0)], 1,
      Worker([ClaimedRow(SecondRow(), 0)], Idle), 0, Worker([], Clearing(FirstRow(), FirstVersion(first))))
  {
    AfterSecondWrite(first, second);
    ClaimSecond();
    RunExtends(SlowReader(first, second), Claim(1, 1, 0, 0));
    hide Run, ClaimUpTo, SlowReader;
  }

  lemma AfterSecondJob(first: Text, second: Text)
    requires !TooLarge(SecondVersion(second)) && 1 <= |ChunksOf(SecondVersion(second))| <= RAG_QDRANT_UPSERT_BATCH_SIZE
    ensures Stands(Run(FastWorker(first, second)), SecondVersion(second).(indexed := true),
      [FirstRow(), ClaimedRow(SecondRow(), 0).(status := Completed)], 1, IDLE, 0, Worker([], Clearing(FirstRow(), FirstVersion(first))))
  {
    hide TooLarge, ChunksOf, Run, SlowReader, OneJob;
    var jobs, row := [FirstRow(), ClaimedRow(SecondRow(), 0)], ClaimedRow(SecondRow(), 0);
    AfterSecondClaim(first, second);
    Indexes(SlowReader(first, second) + [Claim(1, 1, 0, 0)], SecondVersion(second), jobs, 1, row, 0, Worker([], Clearing(FirstRow(), FirstVersion(first))));
    assert jobs[1 := row.(status := Completed)] == [FirstRow(), row.(status := Completed)];
  }

  /**
   Why the one-worker theorem needs one worker: the slow reader's delete, which is by document id
   only, erases the points of the newer version, and no job is left to bring them back.
   */
  lemma TwoWorkersCanEraseTheIndex(first: Text, second: Text)
    requires !TooLarge(FirstVersion(first)) && !TooLarge(SecondVersion(second))
    requires 1 <= |ChunksOf(SecondVersion(second))| <= RAG_QDRANT_UPSERT_BATCH_SIZE
    ensures var s, d := Run(FastWorker(first, second) + [Clear(0)]), SecondVersion(second).(indexed := true);
      && d in s.store.docs.Values && AllCompleted(s.store.jobs, d)
      && PointsOf(s.points, d.user, d.id) == {} != PointIds(ChunksOf(d))
  {
    hide Chunking.Pieces, Chunking.SectionCount, FastWorker;
    var es, d := FastWorker(first, second), SecondVersion(second).(indexed := true);
    AfterSecondJob(first, second);
    RunExtends(es, Clear(0));
    hide Run;
    var s := Run(es + [Clear(0)]);
    assert s.store.docs[("u", "/a.md")] == d;
    RagRuns.SameChunks(SecondVersion(second), d);
    assert ChunksOf(d)[0].point in PointIds(ChunksOf(d));
  }

  /** Such texts exist: the letter `a` is one section and one chunk. */
  lemma OneLetterWillDo(letter: Text)
    requires letter == [97]
    ensures !TooLarge(FirstVersion(letter)) && |ChunksOf(FirstVersion(letter))| == 1
    ensures !TooLarge(SecondVersion(letter)) && |ChunksOf(SecondVersion(letter))| == 1
  {
    ChunkingTheorems.OneLetter(letter);
    hide Chunking.Pieces, Chunking.SectionCount;
  }

  // ----- exactly one worker -----

  /** No event is of a worker with this number or a higher one. */
  ghost predicate WorkersBelow(es: seq<Event>, n: nat) {
    forall e <- es :: WorkerBelow(e, n)
  }

  predicate WorkerBelow(e: Event, n: nat) {
    e.Write? || e.Remove? || e.Move? || e.Reindex? || e.Retry? || e.w < n
  }

  /** In every run of the first `n` workers, every indexed document whose jobs are completed has exactly its points. */
  ghost predicate AgreementHolds(n: nat) {
    forall es, d :: WorkersBelow(es, n) && d in Run(es).store.docs.Values && d.indexed && AllCompleted(Run(es).store.jobs, d) ==>
      PointsRight(Run(es).points, d)
  }

  lemma BelowOne(es: seq<Event>, n: nat)
    requires WorkersBelow(es, n) && n <= 1
    ensures OneWorker(es)
  {}

  lemma TwoWorkersOnly(first: Text, second: Text)
    ensures WorkersBelow(FastWorker(first, second) + [Clear(0)], 2)
  {}

  lemma BelowMore(es: seq<Event>, n: nat, m: nat)
    requires WorkersBelow(es, n) && n <= m
    ensures WorkersBelow(es, m)
  {}

  /** Index and text agree in all runs with at most `n` workers if and only if there is at most one. */
  lemma AgreementIff(n: nat)
    ensures AgreementHolds(n) <==> n <= 1
  {
    hide Run, WorkersBelow, OneWorker, AllCompleted, ChunksOf, FastWorker;
    if n <= 1 {
      forall es, d | WorkersBelow(es, n) && d in Run(es).store.docs.Values && d.indexed && AllCompleted(Run(es).store.jobs, d)
        ensures PointsRight(Run(es).points, d)
      {
        BelowOne(es, n);
        IndexAgreesWithText(es, d);
      }
    } else {
      var es := FastWorker([97], [97]) + [Clear(0)];
      OneLetterWillDo([97]);
      TwoWorkersCanEraseTheIndex([97], [97]);
      TwoWorkersOnly([97], [97]);
      BelowMore(es, 2, n);
      assert !PointsRight(Run(es).points, SecondVersion([97]).(indexed := true));
    }
  }

  /** A run of one worker that gets there: the document is indexed, its job is completed, and it has a point. */
  lemma OneWorkerIndexes(letter: Text)
    requires letter == [97]
    ensures var es := [Write("u", "/a.md", letter, "h1", None, 0), Claim(0, 1, 0, 0)] + OneJob(0); var d := FirstVersion(letter).(indexed := true);
      && OneWorker(es) && d in Run(es).store.docs.Values && AllCompleted(Run(es).store.jobs, d)
      && PointsOf(Run(es).points, d.user, d.id) == PointIds(ChunksOf(d)) && |ChunksOf(d)| == 1
  {
    var start := [Write("u", "/a.md", letter, "h1", None, 0), Claim(0, 1, 0, 0)];
    var d := FirstVersion(letter).(indexed := true);
    OneLetterWillDo(letter);
    AfterFirstClaim(letter);
    assert OneWorker(start + OneJob(0));
    hide Run, TooLarge, ChunksOf, OneJob, OneWorker;
    Indexes(start, FirstVersion(letter), [FirstRow()], 0, FirstRow(), 1, IDLE);
    var s := Run(start + OneJob(0));
    assert s.store.docs[("u", "/a.md")] == d;
    IndexAgreesWithText(start + OneJob(0), d);
    RagRuns.SameChunks(FirstVersion(letter), d);
  }
}
