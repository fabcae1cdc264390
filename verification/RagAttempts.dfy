/**
 How often a job is claimed and processed, and why the queue drains.

 With one worker, between two manual retries: a job is processed at most three times, every claim
 ends in exactly one outcome or crash, and there are at most three claims plus one for every crash.
 */
module RagAttempts {
  import opened Wrappers
  import opened RagStore
  import opened RagWorker
  import opened RagInvariants
  import opened RagRuns
  import opened RagSingleWorker

  predicate IsHeld(held: seq<Job>, id: nat) {
    exists j :: j in held && j.id == id
  }

  /** The counters of one row, against its status. */
  predicate RowCounts(row: Job, h: History, held: bool) {
    var crashes := Count(h.crashes, row.id);
    && row.attempts == Count(h.claims, row.id) == Count(h.outcomes, row.id) + crashes + (if held then 1 else 0)
    && Count(h.starts, row.id) <= row.attempts && Count(h.starts, row.id) <= MAX_RAG_JOB_ATTEMPTS
    && row.attempts <= MAX_RAG_JOB_ATTEMPTS + crashes
    && (row.status == Pending ==> row.attempts < MAX_RAG_JOB_ATTEMPTS)
    && (row.status == Claimed ==> row.startedAt.Some?) && row.status != Failed
    && (row.status == Claimed && !held ==> row.attempts < MAX_RAG_JOB_ATTEMPTS + crashes)
  }

  predicate Uncounted(h: History, id: nat) {
    Count(h.claims, id) == Count(h.starts, id) == Count(h.outcomes, id) == Count(h.crashes, id) == 0
  }

  ghost predicate Counted(s: System) {
    var held := Held(WorkerAt(s, 0));
    && (forall i :: 0 <= i < |s.store.jobs| ==> RowCounts(s.store.jobs[i], s.history, IsHeld(held, i)))
    && (forall i: nat :: |s.store.jobs| <= i ==> Uncounted(s.history, i))
    && (forall j <- WorkerAt(s, 0).queue :: Count(s.history.starts, j.id) < j.attempts)
  }

  // ----- store operations -----

  /** New rows are fresh; old rows are as they were. */
  lemma FreshRows(s: System, t: System)
    requires Invariant(s) && Single(s) && Counted(s)
    requires t.workers == s.workers && t.history == s.history
    requires s.store.jobs <= t.store.jobs
    requires forall i :: |s.store.jobs| <= i < |t.store.jobs| ==>
      t.store.jobs[i].id == i && t.store.jobs[i].attempts == 0 && t.store.jobs[i].status == Pending
    ensures Counted(t)
  {
    var held := Held(WorkerAt(s, 0));
    forall i | |s.store.jobs| <= i < |t.store.jobs| ensures RowCounts(t.store.jobs[i], t.history, IsHeld(held, i)) {
      assert Uncounted(s.history, i);
      assert !IsHeld(held, i);
    }
    forall i | 0 <= i < |s.store.jobs| ensures RowCounts(t.store.jobs[i], t.history, IsHeld(held, i)) {
      assert t.store.jobs[i] == s.store.jobs[i];
    }
  }

  predicate OnlyFresh(jobs: seq<Job>, later: seq<Job>) {
    && jobs <= later
    && forall i :: |jobs| <= i < |later| ==> later[i].id == i && later[i].attempts == 0 && later[i].status == Pending
  }

  lemma {:induction false} MoveFresh(s: Store, order: seq<Doc>, from: Path, to: Path, now: int)
    requires forall d <- order :: InTree(d.path, from)
    ensures OnlyFresh(s.jobs, MoveDocs(s, order, from, to, now).jobs)
  {
    if order != [] { MoveFresh(s, order[..|order| - 1], from, to, now); }
  }

  lemma {:induction false} ReindexFresh(s: Store, order: seq<Doc>, now: int)
    ensures OnlyFresh(s.jobs, PushJobs(s, order, now).jobs)
  {
    if order != [] { ReindexFresh(s, order[..|order| - 1], now); }
  }

  lemma WriteFresh(s: Store, user: UserId, path: Path, text: Text, hash: Hash, expected: Option<nat>, now: int)
    ensures OnlyFresh(s.jobs, WriteMarkdown(s, user, path, text, hash, expected, now).0.jobs)
  {}

  lemma RemoveFresh(s: Store, user: UserId, path: Path, expected: Option<nat>, now: int)
    ensures OnlyFresh(s.jobs, DeleteMarkdownPath(s, user, path, expected, now).0.jobs)
  {}

  lemma StoreEventFresh(s: System, e: Event)
    requires e.Write? || e.Remove? || e.Move? || e.Reindex?
    ensures OnlyFresh(s.store.jobs, Step(s, e).store.jobs)
    ensures Step(s, e).workers == s.workers && Step(s, e).history == s.history
  {
    hide OnlyFresh, WriteMarkdown, DeleteMarkdownPath, MoveDocs, PushJobs, Enumerates;
    SameFresh(s.store.jobs);
    match e
    case Write(user, path, text, hash, expected, now) => WriteFresh(s.store, user, path, text, hash, expected, now);
    case Remove(user, path, expected, now) => RemoveFresh(s.store, user, path, expected, now);
    case Move(user, order, from, to, now) =>
      if forall d <- order :: InTree(d.path, from) { MoveFresh(s.store, order, from, to, now); }
    case Reindex(user, order, prefix, now) => ReindexFresh(s.store, order, now);
  }

  lemma SameFresh(jobs: seq<Job>)
    ensures OnlyFresh(jobs, jobs)
  {}

  lemma StoreEventCounted(s: System, e: Event)
    requires Invariant(s) && Single(s) && Counted(s) && (e.Write? || e.Remove? || e.Move? || e.Reindex?)
    ensures Counted(Step(s, e))
  {
    hide Invariant, Single, Counted, Step;
    StoreEventFresh(s, e);
    FreshRows(s, Step(s, e));
  }

  lemma RetryCounted(s: System, id: nat, now: int)
    requires Invariant(s) && Single(s) && Counted(s)
    ensures Counted(DoRetry(s, id, now))
  {
    hide Invariant, HasActiveTwin, TaskPoints, IndexRight;
    if RetryApplies(s.store.jobs, id) {
      var t, held := DoRetry(s, id, now), Held(WorkerAt(s, 0));
      assert !IsHeld(held, id);
      hide Single, Held;
      RowIds(s);
      hide RowCounts, Uncounted, Forget;
      forall i: nat | |t.store.jobs| <= i ensures Uncounted(t.history, i) {
        OthersRemembered(s.history, id, i);
      }
      forall i | 0 <= i < |t.store.jobs| ensures RowCounts(t.store.jobs[i], t.history, IsHeld(held, i)) {
        if i == id { FreshRow(t.store.jobs[i], s.history); } else { OtherRow(s.store.jobs[i], s.history, id, IsHeld(held, i)); }
      }
    }
  }

  lemma OthersRemembered(h: History, id: nat, other: nat)
    ensures Uncounted(h, other) ==> Uncounted(Forget(h, id), other)
  {}

  lemma FreshRow(row: Job, h: History)
    requires row.status == Pending && row.attempts == 0
    ensures RowCounts(row, Forget(h, row.id), false)
  {}

  lemma OtherRow(row: Job, h: History, id: nat, held: bool)
    requires RowCounts(row, h, held) && row.id != id
    ensures RowCounts(row, Forget(h, id), held)
  {}

  // ----- the worker -----

  /** A row changed exactly when its copy was handed out. */
  lemma {:induction false} ClaimedExactly(jobs: seq<Job>, n: nat, limit: nat, now: int, at: int)
    requires n <= |jobs| && forall i :: 0 <= i < |jobs| ==> jobs[i].id == i
    ensures var (rows, claimed) := ClaimUpTo(jobs, n, limit, now, at);
      && (forall i: nat :: i < |jobs| ==>
           if IsHeld(claimed, i) then Claimable(jobs[i], now) && rows[i] == ClaimedRow(jobs[i], at) else rows[i] == jobs[i])
      && (forall j <- claimed :: j.id < n)
  {
    if n > 0 {
      ClaimedExactly(jobs, n - 1, limit, now, at);
      var (rows, claimed) := ClaimUpTo(jobs, n - 1, limit, now, at);
      var (rows', claimed') := ClaimUpTo(jobs, n, limit, now, at);
      if claimed' != claimed {
        assert claimed' == claimed + [ClaimedRow(jobs[n - 1], at)];
        assert claimed'[|claimed|] in claimed';
        assert IsHeld(claimed', n - 1);
        forall i: nat | i < |jobs| && i != n - 1 ensures IsHeld(claimed', i) == IsHeld(claimed, i) {
          if IsHeld(claimed, i) {
            var j :| j in claimed && j.id == i;
            assert j in claimed';
          }
        }
      }
    }
  }

  lemma BumpAllCounts(m: map<nat, nat>, ids: set<nat>, id: nat)
    ensures Count(BumpAll(m, ids), id) == Count(m, id) + (if id in ids then 1 else 0)
  {}

  lemma ClaimedIds(claimed: seq<Job>, id: nat)
    ensures id in Ids(claimed) <==> IsHeld(claimed, id)
  {}

  /** The claimed rows count one claim more; they are the rows the worker now holds. */
  lemma ClaimRows(jobs: seq<Job>, rows: seq<Job>, claimed: seq<Job>, h: History, g: History, at: int)
    requires |rows| == |jobs|
    requires forall i :: 0 <= i < |jobs| ==> jobs[i].id == i && RowCounts(jobs[i], h, false)
    requires forall i: nat :: i < |jobs| ==>
      if IsHeld(claimed, i) then (jobs[i].status == Pending || jobs[i].status == Claimed) && rows[i] == ClaimedRow(jobs[i], at) else rows[i] == jobs[i]
    requires g == h.(claims := BumpAll(h.claims, Ids(claimed)))
    ensures forall i :: 0 <= i < |jobs| ==> RowCounts(rows[i], g, IsHeld(claimed, i))
  {
    forall i | 0 <= i < |jobs| ensures RowCounts(rows[i], g, IsHeld(claimed, i)) {
      BumpAllCounts(h.claims, Ids(claimed), i);
      ClaimedIds(claimed, i);
      assert RowCounts(jobs[i], h, false);
    }
  }

  lemma ClaimCounted(s: System, limit: nat, now: int, at: int)
    requires Invariant(s) && Single(s) && Counted(s)
    ensures Counted(DoClaim(s, 0, limit, now, at))
  {
    var me, jobs := WorkerAt(s, 0), s.store.jobs;
    if me.queue == [] && me.task == Idle {
      hide Invariant, Single, Counted;
      var (rows, claimed) := ClaimUpTo(jobs, |jobs|, limit, now, at);
      RowIds(s);
      ClaimedExactly(jobs, |jobs|, limit, now, at);
      ClaimedCopies(jobs, |jobs|, limit, now, at);
      NoneHeld(s);
      ClaimFresh(s, rows, claimed, at);
      var t := DoClaim(s, 0, limit, now, at);
      assert t.history == s.history.(claims := BumpAll(s.history.claims, Ids(claimed)));
      assert t.store.jobs == rows && WorkerAt(t, 0) == Worker(claimed, Idle);
      CountedFrom(t, claimed);
    }
  }

  lemma NoneHeld(s: System)
    requires Counted(s) && WorkerAt(s, 0) == IDLE
    ensures forall i :: 0 <= i < |s.store.jobs| ==> RowCounts(s.store.jobs[i], s.history, false)
    ensures forall i: nat :: |s.store.jobs| <= i ==> Uncounted(s.history, i)
  {
    forall i | 0 <= i < |s.store.jobs| ensures RowCounts(s.store.jobs[i], s.history, false) {
      assert RowCounts(s.store.jobs[i], s.history, IsHeld(Held(WorkerAt(s, 0)), i));
    }
  }

  lemma CountedFrom(t: System, claimed: seq<Job>)
    requires WorkerAt(t, 0) == Worker(claimed, Idle)
    requires forall i :: 0 <= i < |t.store.jobs| ==> RowCounts(t.store.jobs[i], t.history, IsHeld(claimed, i))
    requires forall i: nat :: |t.store.jobs| <= i ==> Uncounted(t.history, i)
    requires forall j <- claimed :: Count(t.history.starts, j.id) < j.attempts
    ensures Counted(t)
  {}

  lemma ClaimFresh(s: System, rows: seq<Job>, claimed: seq<Job>, at: int)
    requires |rows| == |s.store.jobs|
    requires forall i :: 0 <= i < |rows| ==> s.store.jobs[i].id == i && RowCounts(s.store.jobs[i], s.history, false)
    requires forall i: nat :: |rows| <= i ==> Uncounted(s.history, i)
    requires forall i: nat :: i < |rows| ==>
      if IsHeld(claimed, i) then (s.store.jobs[i].status == Pending || s.store.jobs[i].status == Claimed) && rows[i] == ClaimedRow(s.store.jobs[i], at)
      else rows[i] == s.store.jobs[i]
    requires forall j <- claimed :: j.id < |rows| && rows[j.id] == j
    ensures var g := s.history.(claims := BumpAll(s.history.claims, Ids(claimed)));
      && (forall i :: 0 <= i < |rows| ==> RowCounts(rows[i], g, IsHeld(claimed, i)))
      && (forall i: nat :: |rows| <= i ==> Uncounted(g, i))
      && (forall j <- claimed :: Count(g.starts, j.id) < j.attempts)
  {
    var g := s.history.(claims := BumpAll(s.history.claims, Ids(claimed)));
    ClaimRows(s.store.jobs, rows, claimed, s.history, g, at);
    forall i: nat | |rows| <= i ensures Uncounted(g, i) {
      assert Uncounted(s.history, i);
      BumpAllCounts(s.history.claims, Ids(claimed), i);
      ClaimedIds(claimed, i);
    }
    forall j | j in claimed ensures Count(g.starts, j.id) < j.attempts {
      ClaimedLater(s.store.jobs[j.id], s.history);
      assert IsHeld(claimed, j.id);
    }
  }

  lemma RowIds(s: System)
    requires Invariant(s)
    ensures forall i :: 0 <= i < |s.store.jobs| ==> s.store.jobs[i].id == i
  {}

  lemma ClaimedLater(row: Job, h: History)
    requires RowCounts(row, h, false)
    ensures Count(h.starts, row.id) <= row.attempts
  {}

  lemma HeldTail(held: seq<Job>)
    requires held != [] && forall a, b :: 0 <= a < b < |held| ==> held[a].id != held[b].id
    ensures IsHeld(held, held[0].id) && !IsHeld(held[1..], held[0].id)
    ensures forall i: nat :: i != held[0].id ==> IsHeld(held[1..], i) == IsHeld(held, i)
  {
    assert held[0] in held;
    assert forall j :: j in held <==> j == held[0] || j in held[1..];
  }

  /** The counters of a row whose claim has had its outcome, and of any other row. */
  lemma EndedCounts(row: Job, h: History, id: nat, settled: Job)
    requires RowCounts(row, h, true) && row.id == id
    requires settled.id == id && settled.attempts == row.attempts && settled.status != Claimed && settled.status != Failed
    requires settled.status == Pending ==> row.attempts < MAX_RAG_JOB_ATTEMPTS
    ensures RowCounts(settled, h.(outcomes := Bump(h.outcomes, id)), false)
  {}

  lemma OtherCounts(row: Job, h: History, id: nat, held: bool)
    requires RowCounts(row, h, held) && row.id != id
    ensures RowCounts(row, h.(outcomes := Bump(h.outcomes, id)), held)
  {}

  lemma OtherUncounted(h: History, id: nat, other: nat)
    requires Uncounted(h, other) && other != id
    ensures Uncounted(h.(outcomes := Bump(h.outcomes, id)), other)
  {}

  /** The first held copy ends with an outcome: its row leaves the claimed ones. */
  lemma OutcomeCounted(s: System, t: System, job: Job, rest: seq<Job>, row: Job)
    requires Invariant(s) && Single(s) && Counted(s)
    requires Held(WorkerAt(s, 0)) == [job] + rest && (WorkerAt(s, 0).task.Idle? || rest == WorkerAt(s, 0).queue)
    requires Held(WorkerAt(t, 0)) == WorkerAt(t, 0).queue == rest
    requires t.history == WithOutcome(s, job)
    requires job.id < |s.store.jobs| && t.store.jobs == s.store.jobs[job.id := row]
    requires row.id == job.id && row.attempts == job.attempts && row.status != Claimed && row.status != Failed
    requires row.status == Pending ==> job.attempts < MAX_RAG_JOB_ATTEMPTS
    ensures Counted(t)
  {
    var held := Held(WorkerAt(s, 0));
    HeldTail(held);
    assert held[1..] == rest && job in held;
    RowIds(s);
    HeldRow(s, job);
    hide Invariant, Single, RowCounts, Uncounted, IsHeld;
    forall i | 0 <= i < |t.store.jobs| ensures RowCounts(t.store.jobs[i], t.history, IsHeld(rest, i)) {
      if i == job.id {
        EndedCounts(s.store.jobs[i], s.history, i, row);
      } else {
        OtherCounts(s.store.jobs[i], s.history, job.id, IsHeld(held, i));
      }
    }
    forall i: nat | |t.store.jobs| <= i ensures Uncounted(t.history, i) {
      OtherUncounted(s.history, job.id, i);
    }
    forall j | j in rest ensures Count(t.history.starts, j.id) < j.attempts {
      assert j in WorkerAt(s, 0).queue;
    }
  }

  lemma TakeCounted(s: System)
    requires Invariant(s) && Single(s) && Counted(s)
    ensures Counted(DoTake(s, 0))
  {
    var me, jobs := WorkerAt(s, 0), s.store.jobs;
    if me.queue != [] && me.task == Idle {
      var t, job := DoTake(s, 0), me.queue[0];
      assert job in Held(me) && IsHeld(Held(me), job.id);
      assert me.queue == [job] + me.queue[1..];
      if job.attempts > MAX_RAG_JOB_ATTEMPTS {
        OutcomeCounted(s, t, job, me.queue[1..], jobs[job.id].(status := Dead));
      } else {
        assert Held(WorkerAt(t, 0)) == Held(me);
        StartCounted(s, t, job);
      }
    }
  }

  lemma StartedRow(row: Job, h: History, id: nat, held: bool)
    requires RowCounts(row, h, held)
    requires row.id == id ==> Count(h.starts, id) < row.attempts <= MAX_RAG_JOB_ATTEMPTS
    ensures RowCounts(row, h.(starts := Bump(h.starts, id)), held)
  {}

  lemma StillUncounted(h: History, id: nat, other: nat)
    requires Uncounted(h, other) && other != id
    ensures Uncounted(h.(starts := Bump(h.starts, id)), other)
  {}

  lemma HeldRow(s: System, job: Job)
    requires Single(s) && job in Held(WorkerAt(s, 0))
    ensures job.id < |s.store.jobs| && s.store.jobs[job.id].attempts == job.attempts
  {}

  /** A job is started once per claim. */
  lemma StartCounted(s: System, t: System, job: Job)
    requires Invariant(s) && Single(s) && Counted(s)
    requires Held(WorkerAt(t, 0)) == Held(WorkerAt(s, 0)) == [job] + WorkerAt(t, 0).queue && job in WorkerAt(s, 0).queue
    requires forall j <- WorkerAt(t, 0).queue :: j in WorkerAt(s, 0).queue
    requires job.attempts <= MAX_RAG_JOB_ATTEMPTS
    requires t.store == s.store && t.history == s.history.(starts := Bump(s.history.starts, job.id))
    ensures Counted(t)
  {
    var held := Held(WorkerAt(s, 0));
    assert job in held;
    RowIds(s);
    HeldRow(s, job);
    HeldApart(s, job, WorkerAt(t, 0).queue);
    hide Invariant, Single, RowCounts, Uncounted, IsHeld, Held, WorkerAt;
    forall i | 0 <= i < |t.store.jobs| ensures RowCounts(t.store.jobs[i], t.history, IsHeld(held, i)) {
      StartedRow(s.store.jobs[i], s.history, job.id, IsHeld(held, i));
    }
    forall i: nat | |t.store.jobs| <= i ensures Uncounted(t.history, i) {
      StillUncounted(s.history, job.id, i);
    }
  }

  lemma HeldApart(s: System, job: Job, rest: seq<Job>)
    requires Single(s) && Held(WorkerAt(s, 0)) == [job] + rest
    ensures forall j <- rest :: j.id != job.id
  {
    var held := Held(WorkerAt(s, 0));
    forall j | j in rest ensures j.id != job.id {
      var a :| 0 <= a < |rest| && rest[a] == j;
      assert held[a + 1] == j && held[0] == job;
    }
  }

  lemma CompleteCounted(s: System)
    requires Invariant(s) && Single(s) && Counted(s)
    ensures Counted(DoComplete(s, 0))
  {
    var me := WorkerAt(s, 0);
    if me.task.Done? {
      HeldTask(s);
      var job := me.task.job;
      OutcomeCounted(s, DoComplete(s, 0), job, me.queue, s.store.jobs[job.id].(status := Completed));
    }
  }

  lemma FailCounted(s: System, retryable: bool, effect: set<PointId>, retryAt: int)
    requires Invariant(s) && Single(s) && Counted(s)
    ensures Counted(DoFail(s, 0, retryable, effect, retryAt))
  {
    var me := WorkerAt(s, 0);
    if !me.task.Idle? {
      HeldTask(s);
      var t, job := DoFail(s, 0, retryable, effect, retryAt), me.task.job;
      OutcomeCounted(s, t, job, me.queue, t.store.jobs[job.id]);
    }
  }

  lemma CrashCounted(s: System, effect: set<PointId>)
    requires Invariant(s) && Single(s) && Counted(s)
    ensures Counted(DoCrash(s, 0, effect))
  {
    var held, t := Held(WorkerAt(s, 0)), DoCrash(s, 0, effect);
    assert Held(WorkerAt(t, 0)) == [];
    forall i: nat ensures Count(t.history.crashes, i) == Count(s.history.crashes, i) + (if IsHeld(held, i) then 1 else 0) {
      BumpAllCounts(s.history.crashes, Ids(held), i);
      ClaimedIds(held, i);
    }
    forall i | 0 <= i < |t.store.jobs| ensures RowCounts(t.store.jobs[i], t.history, IsHeld([], i)) {
      assert RowCounts(s.store.jobs[i], s.history, IsHeld(held, i));
    }
    forall i: nat | |t.store.jobs| <= i ensures Uncounted(t.history, i) {
      assert Uncounted(s.history, i);
      assert !IsHeld(held, i);
    }
  }

  /** The steps inside a job move no counter. */
  lemma SameCounted(s: System, t: System)
    requires Counted(s) && t.history == s.history && t.store.jobs == s.store.jobs
    requires WorkerAt(t, 0).queue == WorkerAt(s, 0).queue && Held(WorkerAt(t, 0)) == Held(WorkerAt(s, 0))
    ensures Counted(t)
  {}

  lemma InsideCounted(s: System, e: Event)
    requires Counted(s) && ByWorkerZero(e)
    requires e.Load? || e.Clear? || e.Upsert? || e.Persist? || e.Purge? || e.PurgeRows?
    ensures Counted(Step(s, e))
  {
    SameCounted(s, Step(s, e));
  }

  lemma StepCounted(s: System, e: Event)
    requires Invariant(s) && Single(s) && Counted(s) && ByWorkerZero(e)
    ensures Counted(Step(s, e))
  {
    hide Invariant, Single, Counted;
    match e
    case Claim(w, limit, now, at) => ClaimCounted(s, limit, now, at);
    case Take(w) => TakeCounted(s);
    case Complete(w) => CompleteCounted(s);
    case Fail(w, retryable, effect, retryAt) => FailCounted(s, retryable, effect, retryAt);
    case Crash(w, effect) => CrashCounted(s, effect);
    case Retry(id, now) => RetryCounted(s, id, now);
    case Write(_, _, _, _, _, _) => StoreEventCounted(s, e);
    case Remove(_, _, _, _) => StoreEventCounted(s, e);
    case Move(_, _, _, _, _) => StoreEventCounted(s, e);
    case Reindex(_, _, _, _) => StoreEventCounted(s, e);
    case _ => InsideCounted(s, e);
  }

  lemma {:induction false} RunCounted(es: seq<Event>)
    requires OneWorker(es)
    ensures Counted(Run(es))
  {
    if es != [] {
      RunCounted(es[..|es| - 1]);
      RunKeeps(es[..|es| - 1]);
      RunSingle(es[..|es| - 1]);
      StepCounted(Run(es[..|es| - 1]), es[|es| - 1]);
    }
  }

  /**
   Since its last manual retry a job was processed at most three times, every claim but the one at
   work has had its one outcome or crash, and the claims number at most three plus the crashes.
   */
  lemma BoundedAttempts(es: seq<Event>, id: nat)
    requires OneWorker(es) && id < |Run(es).store.jobs|
    ensures var s := Run(es); var h := s.history;
      && Count(h.starts, id) <= 3
      && Count(h.claims, id) == s.store.jobs[id].attempts
      && Count(h.claims, id) == Count(h.outcomes, id) + Count(h.crashes, id) + (if IsHeld(Held(WorkerAt(s, 0)), id) then 1 else 0)
      && Count(h.claims, id) <= 3 + Count(h.crashes, id)
  {
    RunCounted(es);
    RunKeeps(es);
    var s := Run(es);
    assert RowCounts(s.store.jobs[id], s.history, IsHeld(Held(WorkerAt(s, 0)), id));
  }
}
