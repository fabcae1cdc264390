/**
 The queue drains: with no new writes, every effective step a worker can take, failures included,
 lowers a number; a crash raises it by a bounded amount; and while a job is pending or claimed there
 is a step to take.
 */
module RagDrain {
  import opened Wrappers
  import opened RagStore
  import Chunking
  import opened RagWorker
  import opened RagInvariants
  import opened RagRuns
  import opened RagSingleWorker
  import opened RagAttempts

  // ----- the measure -----

  // No turn of a job has more effective steps than this, and a claim of a row is worth one more.
  const TURN_STEPS: nat := MAX_RAG_SOURCE_CHUNKS + 5
  const ROW_STEPS: nat := TURN_STEPS + 1

  /** Pending before attempt 1 is 6, at work on it 5, pending again 4, ... settled 0. */
  function RowRank(j: Job): nat {
    match j.status
    case Pending => if j.attempts <= MAX_RAG_JOB_ATTEMPTS then 2 * (MAX_RAG_JOB_ATTEMPTS - j.attempts) else 0
    case Claimed => if j.attempts <= MAX_RAG_JOB_ATTEMPTS then 2 * (MAX_RAG_JOB_ATTEMPTS - j.attempts) + 1 else 1
    case _ => 0
  }

  /** Claimed rows that no worker holds, which crashes leave behind, have one claim more to come. */
  function RowLeft(j: Job, held: bool): nat {
    ROW_STEPS * (RowRank(j) + if j.status == Claimed && !held then 1 else 0)
  }

  ghost function RowsLeft(jobs: seq<Job>, held: seq<Job>): nat
    decreases |jobs|, 1
  {
    if jobs == [] then 0 else RowsLeftToLast(jobs, held)
  }

  ghost function RowsLeftToLast(jobs: seq<Job>, held: seq<Job>): nat
    requires jobs != []
    decreases |jobs|, 0
  {
    RowsLeft(jobs[..|jobs| - 1], held) + RowLeft(jobs[|jobs| - 1], IsHeld(held, |jobs| - 1))
  }

  function StepsLeft(t: Task): nat {
    match t
    case Idle => 0
    case Done(_) => 1
    case Purged(_) => 2
    case Upserting(_, doc, done) => if done <= |ChunksOf(doc)| then 2 + |ChunksOf(doc)| - done else 2
    case Clearing(_, _) => 3 + MAX_RAG_SOURCE_CHUNKS
    case Ready(_) => 4 + MAX_RAG_SOURCE_CHUNKS
  }

  ghost function Potential(s: System): nat {
    var me := WorkerAt(s, 0);
    RowsLeft(s.store.jobs, Held(me)) + TURN_STEPS * |me.queue| + StepsLeft(me.task)
  }

  // ----- sums over the rows -----

  lemma {:induction false} RowsFall(jobs: seq<Job>, later: seq<Job>, held: seq<Job>, now: seq<Job>)
    requires |jobs| == |later|
    requires forall i: nat :: i < |jobs| ==> RowLeft(later[i], IsHeld(now, i)) <= RowLeft(jobs[i], IsHeld(held, i))
    ensures RowsLeft(later, now) <= RowsLeft(jobs, held)
    decreases |jobs|
  {
    hide RowLeft, IsHeld;
    if jobs != [] { RowsFall(jobs[..|jobs| - 1], later[..|jobs| - 1], held, now); }
  }

  /** One row falls by at least a row's worth, and no other one rises. */
  lemma {:induction false} RowFalls(jobs: seq<Job>, later: seq<Job>, held: seq<Job>, now: seq<Job>, k: nat)
    requires |jobs| == |later| && k < |jobs|
    requires forall i: nat :: i < |jobs| ==> RowLeft(later[i], IsHeld(now, i)) <= RowLeft(jobs[i], IsHeld(held, i))
    requires RowLeft(later[k], IsHeld(now, k)) + ROW_STEPS <= RowLeft(jobs[k], IsHeld(held, k))
    ensures RowsLeft(later, now) + ROW_STEPS <= RowsLeft(jobs, held)
    decreases |jobs|
  {
    hide RowLeft, IsHeld;
    if k == |jobs| - 1 {
      RowsFall(jobs[..k], later[..k], held, now);
    } else {
      RowFalls(jobs[..|jobs| - 1], later[..|jobs| - 1], held, now, k);
    }
  }

  /** How many of the first `n` rows are held. */
  function CountHeld(held: seq<Job>, n: nat): (count: nat)
    ensures count <= n
  {
    if n == 0 then 0 else CountHeld(held, n - 1) + if IsHeld(held, n - 1) then 1 else 0
  }

  lemma {:induction false} SameHeld(held: seq<Job>, now: seq<Job>, n: nat)
    requires forall i: nat :: i < n ==> IsHeld(held, i) == IsHeld(now, i)
    ensures CountHeld(held, n) == CountHeld(now, n)
  {
    hide IsHeld;
    if n > 0 { SameHeld(held, now, n - 1); }
  }

  lemma HeldMore(claimed: seq<Job>, row: Job)
    ensures forall i: nat :: IsHeld(claimed + [row], i) <==> IsHeld(claimed, i) || i == row.id
  {
    var more := claimed + [row];
    assert more[|claimed|] in more;
    forall i: nat ensures IsHeld(more, i) <==> IsHeld(claimed, i) || i == row.id {
      if IsHeld(claimed, i) {
        var j :| j in claimed && j.id == i;
        assert j in more;
      }
    }
  }

  /** A batch holds as many rows as it has copies. */
  lemma {:induction false} BatchIsHeld(jobs: seq<Job>, n: nat, limit: nat, now: int, at: int)
    requires n <= |jobs| && forall i :: 0 <= i < |jobs| ==> jobs[i].id == i
    ensures var claimed := ClaimUpTo(jobs, n, limit, now, at).1;
      CountHeld(claimed, n) == |claimed| && forall i: nat :: n <= i ==> !IsHeld(claimed, i)
  {
    hide IsHeld;
    if n == 0 {
      NoneIsHeld();
    } else {
      BatchIsHeld(jobs, n - 1, limit, now, at);
      var before, after := ClaimUpTo(jobs, n - 1, limit, now, at).1, ClaimUpTo(jobs, n, limit, now, at).1;
      if after != before {
        HeldMore(before, ClaimedRow(jobs[n - 1], at));
        SameHeld(before, after, n - 1);
      }
    }
  }

  lemma NoneIsHeld()
    ensures forall i: nat :: !IsHeld([], i)
  {}

  // ----- every effective step goes down -----

  predicate WorkerStep(e: Event) {
    match e
    case Claim(w, _, _, _) => w == 0
    case Take(w) => w == 0
    case Load(w) => w == 0
    case Clear(w) => w == 0
    case Upsert(w) => w == 0
    case Persist(w) => w == 0
    case Purge(w) => w == 0
    case PurgeRows(w) => w == 0
    case Complete(w) => w == 0
    case Fail(w, _, _, _) => w == 0
    case _ => false
  }

  lemma OneRowMore(jobs: seq<Job>, n: nat, held: seq<Job>)
    requires n < |jobs|
    ensures RowsLeft(jobs[..n + 1], held) == RowsLeft(jobs[..n], held) + RowLeft(jobs[n], IsHeld(held, n))
  {
    hide RowLeft, IsHeld;
    assert jobs[..n + 1][..n] == jobs[..n];
  }

  lemma NoRowsLeft(held: seq<Job>)
    ensures RowsLeft([], held) == 0 && RowsLeft([], []) == 0
  {}

  lemma ClaimedLeft(j: Job, h: History, at: int)
    requires RowCounts(j, h, false) && (j.status == Pending || j.status == Claimed)
    ensures RowLeft(ClaimedRow(j, at), true) + ROW_STEPS <= RowLeft(j, false)
  {}

  /** Each claimed row falls by a row's worth: a pending one a rank, an orphan its claim. */
  lemma {:induction false} ClaimedFall(jobs: seq<Job>, rows: seq<Job>, claimed: seq<Job>, h: History, at: int, n: nat)
    requires n <= |jobs| == |rows| && forall i :: 0 <= i < n ==> RowCounts(jobs[i], h, false)
    requires forall i: nat :: i < n ==>
      if IsHeld(claimed, i) then (jobs[i].status == Pending || jobs[i].status == Claimed) && rows[i] == ClaimedRow(jobs[i], at) else rows[i] == jobs[i]
    ensures RowsLeft(rows[..n], claimed) + ROW_STEPS * CountHeld(claimed, n) <= RowsLeft(jobs[..n], [])
  {
    hide RowCounts, RowLeft, RowsLeft, IsHeld;
    NoneIsHeld();
    if n == 0 {
      NoRowsLeft(claimed);
      assert rows[..0] == jobs[..0] == [];
    } else {
      ClaimedFall(jobs, rows, claimed, h, at, n - 1);
      OneRowMore(rows, n - 1, claimed);
      OneRowMore(jobs, n - 1, []);
      if IsHeld(claimed, n - 1) { ClaimedLeft(jobs[n - 1], h, at); }
    }
  }

  lemma PotentialAtTake(s: System)
    requires WorkerAt(s, 0).task.Idle?
    ensures Potential(s) == RowsLeft(s.store.jobs, WorkerAt(s, 0).queue) + TURN_STEPS * |WorkerAt(s, 0).queue|
  {
    hide RowsLeft;
  }

  /** Each claimed row pays for its turn and for one step more. */
  lemma BatchFalls(jobs: seq<Job>, h: History, limit: nat, now: int, at: int)
    requires forall i :: 0 <= i < |jobs| ==> jobs[i].id == i && RowCounts(jobs[i], h, false)
    ensures var (rows, claimed) := ClaimUpTo(jobs, |jobs|, limit, now, at);
      RowsLeft(rows, claimed) + ROW_STEPS * |claimed| <= RowsLeft(jobs, [])
  {
    hide RowCounts, RowsLeft, ClaimUpTo, IsHeld, CountHeld;
    var (rows, claimed) := ClaimUpTo(jobs, |jobs|, limit, now, at);
    ClaimedExactly(jobs, |jobs|, limit, now, at);
    BatchIsHeld(jobs, |jobs|, limit, now, at);
    ClaimedFall(jobs, rows, claimed, h, at, |jobs|);
    assert rows[..|jobs|] == rows && jobs[..|jobs|] == jobs;
  }

  lemma ClaimDown(s: System, limit: nat, now: int, at: int)
    requires Invariant(s) && Single(s) && Counted(s)
    requires WorkerAt(s, 0) == IDLE && ClaimUpTo(s.store.jobs, |s.store.jobs|, limit, now, at).1 != []
    ensures Potential(DoClaim(s, 0, limit, now, at)) < Potential(s)
  {
    RowIds(s);
    NoneHeld(s);
    hide Invariant, Single, Counted, RowCounts, RowsLeft, ClaimUpTo, Potential;
    var t := DoClaim(s, 0, limit, now, at);
    BatchFalls(s.store.jobs, s.history, limit, now, at);
    PotentialAtTake(s);
    PotentialAtTake(t);
  }

  lemma ReleasedLeft(job: Job, row: Job, settled: Job)
    requires row.status == Claimed && settled.attempts == row.attempts && settled.status != Claimed
    requires settled.status == Pending ==> row.attempts < MAX_RAG_JOB_ATTEMPTS
    ensures RowLeft(settled, false) + ROW_STEPS <= RowLeft(row, true)
  {}

  /** The first held row is released: claimed ranks above pending at the same attempt, and above settled. */
  lemma ReleaseFalls(jobs: seq<Job>, held: seq<Job>, row: Job)
    requires held != [] && HeldOk(jobs, held)
    requires row.attempts == held[0].attempts && row.status != Claimed
    requires row.status == Pending ==> row.attempts < MAX_RAG_JOB_ATTEMPTS
    ensures RowsLeft(jobs[held[0].id := row], held[1..]) + ROW_STEPS <= RowsLeft(jobs, held)
  {
    var id := held[0].id;
    assert held[0] in held;
    HeldTail(held);
    ReleasedLeft(held[0], jobs[id], row);
    hide RowLeft, RowsLeft, IsHeld;
    RowFalls(jobs, jobs[id := row], held, held[1..], id);
  }

  lemma TakeDown(s: System)
    requires Invariant(s) && Single(s) && DoTake(s, 0) != s
    ensures Potential(DoTake(s, 0)) < Potential(s)
  {
    hide RowsLeft, Invariant;
    var me, t := WorkerAt(s, 0), DoTake(s, 0);
    var job := me.queue[0];
    assert job in Held(me);
    if job.attempts > MAX_RAG_JOB_ATTEMPTS {
      ReleaseFalls(s.store.jobs, Held(me), t.store.jobs[job.id]);
    } else {
      assert Held(WorkerAt(t, 0)) == Held(me) && t.store == s.store;
    }
  }

  lemma EndedRow(s: System, e: Event)
    requires Invariant(s) && Single(s) && WorkerStep(e) && (e.Complete? || e.Fail?) && Step(s, e) != s
    ensures var job := WorkerAt(s, 0).task.job; var rows := Step(s, e).store.jobs;
      && !WorkerAt(s, 0).task.Idle? && job in Held(WorkerAt(s, 0)) && job.id < |s.store.jobs| == |rows|
      && rows == s.store.jobs[job.id := rows[job.id]] && rows[job.id].attempts == job.attempts && rows[job.id].status != Claimed
      && (rows[job.id].status == Pending ==> job.attempts < MAX_RAG_JOB_ATTEMPTS)
  {
    hide ChunksOf, Batch, PointsOf;
    HeldTask(s);
    hide Invariant, Single;
    assert WorkerAt(s, 0).task.job == Held(WorkerAt(s, 0))[0];
  }

  lemma EndDown(s: System, e: Event)
    requires Invariant(s) && Single(s) && WorkerStep(e) && (e.Complete? || e.Fail?) && Step(s, e) != s
    ensures Potential(Step(s, e)) < Potential(s)
  {
    EndedRow(s, e);
    var held := Held(WorkerAt(s, 0));
    var id := held[0].id;
    EndedWorker(s, e);
    hide Step, RowsLeft, Invariant, WorkerAt;
    assert held[0] in held;
    ReleaseFalls(s.store.jobs, held, Step(s, e).store.jobs[id]);
  }

  lemma EndedWorker(s: System, e: Event)
    requires WorkerStep(e) && (e.Complete? || e.Fail?) && Step(s, e) != s
    ensures var me, me' := WorkerAt(s, 0), WorkerAt(Step(s, e), 0);
      me' == Worker(me.queue, Idle) && Held(me) == [me.task.job] + me.queue && Held(me') == Held(me)[1..]
  {
    hide ChunksOf, PartialEffect;
  }

  lemma InsideStepDown(s: System, e: Event)
    requires Single(s) && WorkerStep(e) && Step(s, e) != s
    requires e.Load? || e.Clear? || e.Upsert? || e.Persist? || e.Purge? || e.PurgeRows?
    ensures Potential(Step(s, e)) < Potential(s)
  {
    hide Chunking.Pieces, Chunking.SectionCount, RowsLeft, HeldOk, IndexRight;
    var t := Step(s, e);
    assert Held(WorkerAt(t, 0)) == Held(WorkerAt(s, 0)) && t.store.jobs == s.store.jobs;
  }

  /** A step that changes something; a claim counts if it claims a job. */
  ghost predicate Effective(s: System, e: Event) {
    && WorkerStep(e) && Step(s, e) != s
    && (e.Claim? ==> ClaimUpTo(s.store.jobs, |s.store.jobs|, e.limit, e.now, e.at).1 != [])
  }

  /** Whatever a worker does short of crashing, success or failure, brings the queue nearer to settled. */
  lemma EffectiveStepGoesDown(es: seq<Event>, e: Event)
    requires OneWorker(es) && Effective(Run(es), e)
    ensures Potential(Step(Run(es), e)) < Potential(Run(es))
  {
    var s := Run(es);
    RunKeeps(es);
    RunSingle(es);
    RunCounted(es);
    hide Run, Invariant, Single, Counted, Potential, ClaimUpTo;
    if e.Claim? {
      assert WorkerAt(s, 0) == IDLE;
      ClaimDown(s, e.limit, e.now, e.at);
    } else if e.Take? {
      TakeDown(s);
    } else if e.Complete? || e.Fail? {
      EndDown(s, e);
    } else {
      InsideStepDown(s, e);
    }
  }

  // ----- crashes -----

  lemma {:induction false} OrphansLeft(jobs: seq<Job>, held: seq<Job>, n: nat)
    requires n <= |jobs|
    ensures RowsLeft(jobs[..n], []) <= RowsLeft(jobs[..n], held) + ROW_STEPS * n
  {
    hide IsHeld;
    if n > 0 {
      OrphansLeft(jobs, held, n - 1);
      assert jobs[..n][..n - 1] == jobs[..n - 1];
    }
  }

  /** A crash costs at most one more claim for each row. */
  lemma CrashRises(s: System, effect: set<PointId>)
    ensures var t := DoCrash(s, 0, effect); Potential(t) <= Potential(s) + ROW_STEPS * |s.store.jobs| && t.store == s.store
  {
    hide RowsLeft, PartialEffect;
    OrphansLeft(s.store.jobs, Held(WorkerAt(s, 0)), |s.store.jobs|);
    assert s.store.jobs[..|s.store.jobs|] == s.store.jobs;
    assert Held(WorkerAt(DoCrash(s, 0, effect), 0)) == [];
  }

  predicate WorkerCrash(e: Event) {
    e.Crash? && e.w == 0
  }

  lemma NothingClaimed(s: System, limit: nat, now: int, at: int)
    requires Invariant(s) && ClaimUpTo(s.store.jobs, |s.store.jobs|, limit, now, at).1 == []
    ensures DoClaim(s, 0, limit, now, at).store == s.store
  {
    RowIds(s);
    hide Invariant, ClaimUpTo;
    ClaimedExactly(s.store.jobs, |s.store.jobs|, limit, now, at);
    assert ClaimUpTo(s.store.jobs, |s.store.jobs|, limit, now, at).0 == s.store.jobs;
  }

  lemma IneffectiveStep(s: System, e: Event)
    requires Invariant(s) && WorkerStep(e) && !Effective(s, e)
    ensures Potential(Step(s, e)) == Potential(s) && Step(s, e).store == s.store
  {
    if Step(s, e) != s {
      NothingClaimed(s, e.limit, e.now, e.at);
      hide Invariant, RowsLeft, ClaimUpTo;
      assert WorkerAt(Step(s, e), 0) == IDLE == WorkerAt(s, 0);
    }
  }

  lemma StepKeepsRows(s: System, e: Event)
    requires WorkerStep(e) || WorkerCrash(e)
    ensures |Step(s, e).store.jobs| == |s.store.jobs|
  {
    hide ChunksOf, PartialEffect, PointsOf;
  }

  ghost function EffectiveSteps(es: seq<Event>, more: seq<Event>): nat
    decreases |more|, 1
  {
    if more == [] then 0 else EffectiveToLast(es, more)
  }

  ghost function EffectiveToLast(es: seq<Event>, more: seq<Event>): nat
    requires more != []
    decreases |more|, 0
  {
    EffectiveSteps(es, more[..|more| - 1]) + if Effective(Run(es + more[..|more| - 1]), more[|more| - 1]) then 1 else 0
  }

  function Crashes(more: seq<Event>): nat {
    if more == [] then 0 else Crashes(more[..|more| - 1]) + if more[|more| - 1].Crash? then 1 else 0
  }

  /** What one step costs: an effective one at least one, a crash less than nothing, by a bounded amount. */
  lemma StepCosts(es: seq<Event>, e: Event)
    requires OneWorker(es) && (WorkerStep(e) || WorkerCrash(e))
    ensures var s, t := Run(es), Run(es + [e]);
      && Potential(t) + (if Effective(s, e) then 1 else 0) <= Potential(s) + (if e.Crash? then ROW_STEPS * |s.store.jobs| else 0)
      && |t.store.jobs| == |s.store.jobs| && OneWorker(es + [e])
  {
    var s := Run(es);
    RunKeeps(es);
    LastStep(es, e);
    StepKeepsRows(s, e);
    hide Run, Invariant, Potential, Effective;
    if e.Crash? {
      CrashRises(s, e.effect);
      CrashIsIneffective(s, e);
    } else if Effective(s, e) {
      EffectiveStepGoesDown(es, e);
    } else {
      IneffectiveStep(s, e);
    }
  }

  lemma CrashIsIneffective(s: System, e: Event)
    requires e.Crash?
    ensures !Effective(s, e) && (e.w == 0 ==> Step(s, e) == DoCrash(s, 0, e.effect))
  {}

  lemma LastStep(es: seq<Event>, e: Event)
    ensures Run(es + [e]) == Step(Run(es), e)
  {
    hide Step;
    assert (es + [e])[..|es|] == es;
  }

  /**
   However the worker fails and however often it dies: its effective steps are paid for by what is left
   to do at the start, and by at most one more claim of each row for every crash.
   */
  lemma {:induction false} StepsArePaid(es: seq<Event>, more: seq<Event>)
    requires OneWorker(es) && forall e <- more :: WorkerStep(e) || WorkerCrash(e)
    ensures var s, t := Run(es), Run(es + more);
      && EffectiveSteps(es, more) + Potential(t) <= Potential(s) + ROW_STEPS * |s.store.jobs| * Crashes(more)
      && |t.store.jobs| == |s.store.jobs| && OneWorker(es + more)
    decreases |more|
  {
    hide Run, Potential, Effective, WorkerStep, WorkerCrash, OneWorker;
    if more == [] {
      assert es + more == es;
    } else {
      var front, last := more[..|more| - 1], more[|more| - 1];
      StepsArePaid(es, front);
      StepCosts(es + front, last);
      assert es + more == es + front + [last];
      OneMore(ROW_STEPS * |Run(es).store.jobs|, Crashes(front));
    }
  }

  lemma OneMore(a: nat, n: nat)
    ensures a * (n + 1) == a * n + a
  {}

  lemma {:induction false} RowsBounded(jobs: seq<Job>)
    ensures RowsLeft(jobs, []) <= ROW_STEPS * 8 * |jobs|
  {
    hide IsHeld;
    if jobs != [] { RowsBounded(jobs[..|jobs| - 1]); }
  }

  /** So, from an idle worker on, a run with `c` crashes has at most 262 (8 + c) effective steps for each row. */
  lemma StepsAreBounded(es: seq<Event>, more: seq<Event>)
    requires OneWorker(es) && WorkerAt(Run(es), 0) == IDLE && forall e <- more :: WorkerStep(e) || WorkerCrash(e)
    ensures EffectiveSteps(es, more) <= 262 * |Run(es).store.jobs| * (8 + Crashes(more))
  {
    StepsArePaid(es, more);
    RowsBounded(Run(es).store.jobs);
    PotentialAtTake(Run(es));
    hide *;
    Spread(EffectiveSteps(es, more), Potential(Run(es)), |Run(es).store.jobs|, Crashes(more));
  }

  lemma Spread(steps: nat, start: nat, n: nat, c: nat)
    requires steps <= start + ROW_STEPS * n * c && start <= ROW_STEPS * 8 * n
    ensures steps <= 262 * n * (8 + c)
  {
    assert 262 * n * (8 + c) == 262 * n * 8 + 262 * n * c;
  }

  // ----- there is always a step -----

  predicate Settled(j: Job) {
    j.status == Completed || j.status == Dead
  }

  ghost predicate AllSettled(jobs: seq<Job>) {
    forall j <- jobs :: Settled(j)
  }

  /** The next step of a worker that claims `limit` jobs at a time and meets no failure; a document over the limits is rejected. */
  ghost function NextStep(s: System, limit: nat, now: int): Event {
    var me := WorkerAt(s, 0);
    match me.task
    case Idle => if me.queue != [] then Take(0) else Claim(0, limit, now, now)
    case Ready(job) => if job.kind.DeleteMarkdown? then Purge(0) else Load(0)
    case Clearing(_, doc) => if TooLarge(doc) then Fail(0, false, {}, now) else Clear(0)
    case Upserting(_, doc, done) => if done < |ChunksOf(doc)| then Upsert(0) else Persist(0)
    case Purged(_) => PurgeRows(0)
    case Done(_) => Complete(0)
  }

  predicate DueBy(j: Job, now: int) {
    Settled(j) || Claimable(j, now)
  }

  lemma {:induction false} EventuallyDue(jobs: seq<Job>) returns (now: int)
    requires forall j <- jobs :: j.status != Failed && (j.status == Claimed ==> j.startedAt.Some?)
    ensures forall j <- jobs :: DueBy(j, now)
  {
    now := 0;
    if jobs != [] {
      var last := jobs[|jobs| - 1];
      now := EventuallyDue(jobs[..|jobs| - 1]);
      var due := if last.status == Claimed then last.startedAt.value + CLAIM_LEASE_MS + 1 else last.availableAt;
      now := if due > now then due else now;
      forall j | j in jobs ensures DueBy(j, now) {
        assert j in jobs[..|jobs| - 1] || j == last;
      }
    }
  }

  lemma {:induction false} ClaimsSome(jobs: seq<Job>, n: nat, limit: nat, now: int, at: int)
    requires n <= |jobs| && limit >= 1 && exists i :: 0 <= i < n && Claimable(jobs[i], now)
    ensures ClaimUpTo(jobs, n, limit, now, at).1 != []
  {
    if !Claimable(jobs[n - 1], now) { ClaimsSome(jobs, n - 1, limit, now, at); }
  }

  lemma IdleIsNotStuck(s: System, limit: nat, now: int)
    requires Single(s) && !AllSettled(s.store.jobs) && WorkerAt(s, 0) == IDLE && limit >= 1
    requires forall j <- s.store.jobs :: DueBy(j, now)
    ensures ClaimUpTo(s.store.jobs, |s.store.jobs|, limit, now, now).1 != []
  {
    hide Single, Settled, Claimable;
    var j :| j in s.store.jobs && !Settled(j);
    var i :| 0 <= i < |s.store.jobs| && s.store.jobs[i] == j;
    assert DueBy(j, now);
    ClaimsSome(s.store.jobs, |s.store.jobs|, limit, now, now);
  }

  lemma BusyIsNotStuck(s: System, limit: nat, now: int)
    requires Invariant(s) && Single(s) && WorkerAt(s, 0) != IDLE
    ensures var e := NextStep(s, limit, now); WorkerStep(e) && !e.Claim? && Step(s, e) != s
  {
    hide Chunking.Pieces, Chunking.SectionCount;
    if !WorkerAt(s, 0).task.Idle? { HeldTask(s); }
    hide StoreOk, HeldOk, IndexRight, KeysOk;
  }

  /** With one worker, while a row is unsettled there is an effective step, however few jobs are claimed at a time. */
  lemma NotStuck(es: seq<Event>, limit: nat, now: int)
    requires OneWorker(es) && !AllSettled(Run(es).store.jobs) && limit >= 1
    requires forall j <- Run(es).store.jobs :: DueBy(j, now)
    ensures Effective(Run(es), NextStep(Run(es), limit, now))
  {
    var s := Run(es);
    RunKeeps(es);
    RunSingle(es);
    hide Invariant, Single, AllSettled, Run, DueBy, ClaimUpTo;
    if WorkerAt(s, 0) == IDLE {
      IdleIsNotStuck(s, limit, now);
      assert WorkerAt(Step(s, Claim(0, limit, now, now)), 0) != IDLE;
    } else {
      BusyIsNotStuck(s, limit, now);
    }
  }

  predicate ClaimsAtMost(e: Event, limit: nat) {
    WorkerStep(e) && (e.Claim? ==> e.limit == limit)
  }

  lemma DrainStep(es: seq<Event>, limit: nat) returns (e: Event)
    requires OneWorker(es) && !AllSettled(Run(es).store.jobs) && limit >= 1
    ensures ClaimsAtMost(e, limit) && OneWorker(es + [e]) && Potential(Run(es + [e])) < Potential(Run(es))
  {
    forall j | j in Run(es).store.jobs ensures j.status != Failed && (j.status == Claimed ==> j.startedAt.Some?) {
      StartedAtSet(es, j);
    }
    var now := EventuallyDue(Run(es).store.jobs);
    NotStuck(es, limit, now);
    e := NextStep(Run(es), limit, now);
    LastStep(es, e);
    hide Run, Potential, Step;
    EffectiveStepGoesDown(es, e);
  }

  /** From every run a single worker can drain the queue, whatever its batch size: every job ends completed or dead. */
  lemma {:induction false} Drain(es: seq<Event>, limit: nat) returns (more: seq<Event>)
    requires OneWorker(es) && limit >= 1
    ensures OneWorker(es + more) && (forall e <- more :: ClaimsAtMost(e, limit))
    ensures AllSettled(Run(es + more).store.jobs)
    decreases Potential(Run(es))
  {
    hide Step, Run, OneWorker, ClaimsAtMost, AllSettled, Potential;
    if AllSettled(Run(es).store.jobs) {
      more := [];
      assert es + [] == es;
    } else {
      var e := DrainStep(es, limit);
      var rest := Drain(es + [e], limit);
      more := [e] + rest;
      assert es + more == es + [e] + rest;
    }
  }

  lemma StartedAtSet(es: seq<Event>, j: Job)
    requires OneWorker(es) && j in Run(es).store.jobs
    ensures j.status != Failed && (j.status == Claimed ==> j.startedAt.Some?)
  {
    RunCounted(es);
    var s := Run(es);
    var i :| 0 <= i < |s.store.jobs| && s.store.jobs[i] == j;
    assert RowCounts(s.store.jobs[i], s.history, IsHeld(Held(WorkerAt(s, 0)), i));
  }
}
