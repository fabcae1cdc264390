/** What every run of the IMAP poller keeps. */
module ImapTheorems {
  import opened Wrappers
  import opened ImapProtocol

  // ----- choosing UIDs -----

  lemma {:induction false} InsertKeeps(s: seq<nat>, u: nat)
    requires Increasing(s)
    ensures Increasing(Insert(s, u)) && forall v :: v in Insert(s, u) <==> v == u || v in s
  {
    if s != [] && u > s[0] {
      var rest := Insert(s[1..], u);
      InsertKeeps(s[1..], u);
      assert s == [s[0]] + s[1..];
      forall v | v in rest ensures v > s[0] {
        if v != u { var i :| 0 <= i < |s[1..]| && s[1..][i] == v; }
      }
      assert forall i :: 0 <= i < |rest| ==> rest[i] in rest;
      assert Insert(s, u) == [s[0]] + rest;
    } else if s != [] && u < s[0] {
      assert Insert(s, u) == [u] + s;
      assert forall i :: 0 <= i < |s| ==> s[i] >= s[0];
    }
  }

  lemma {:induction false} SortAboveIs(uids: seq<nat>, cursor: nat)
    ensures Increasing(SortAbove(uids, cursor)) && forall v :: v in SortAbove(uids, cursor) <==> v in uids && v > cursor
  {
    if uids != [] {
      SortAboveIs(uids[1..], cursor);
      assert uids == [uids[0]] + uids[1..];
      if uids[0] > cursor { InsertKeeps(SortAbove(uids[1..], cursor), uids[0]); }
    }
  }

  /** The chosen UIDs are the smallest ones above the cursor, ascending and distinct, up to the limit. */
  lemma EligibleAreSmallest(uids: seq<nat>, lastUid: Option<nat>, limit: nat)
    ensures var r := EligibleImapUids(uids, lastUid, limit);
      && Increasing(r) && |r| <= limit
      && (forall u <- r :: u in uids && u > CursorOf(lastUid))
      && (forall u <- uids :: u > CursorOf(lastUid) && u !in r ==> |r| == limit && forall v <- r :: v < u)
  {
    var sorted := SortAbove(uids, CursorOf(lastUid));
    SortAboveIs(uids, CursorOf(lastUid));
    var r := EligibleImapUids(uids, lastUid, limit);
    forall u | u in r ensures u in sorted { var i :| 0 <= i < |r| && r[i] == u; assert sorted[i] == u; }
    forall u | u in uids && u > CursorOf(lastUid) && u !in r ensures |r| == limit && forall v <- r :: v < u {
      assert u in sorted;
      var i :| 0 <= i < |sorted| && sorted[i] == u;
      assert forall k :: 0 <= k < |r| ==> r[k] == sorted[k] && r[k] in r;
      forall v | v in r ensures v < u { var j :| 0 <= j < |r| && r[j] == v; assert sorted[j] == v; }
    }
  }

  // ----- back-off -----

  lemma {:induction false} Power2Grows(a: nat, b: nat)
    requires a <= b
    ensures Power2(a) <= Power2(b)
    decreases b - a
  {
    if a < b { Power2Grows(a + 1, b); }
  }

  lemma TenDoublings()
    ensures Power2(10) == 1024
  {
    assert Power2(4) == 16;
    assert Power2(7) == 128;
  }

  /** Each further failure doubles the wait until it is an hour; the bound on the exponent is never felt. */
  lemma BackoffDoubles(failures: nat, pollIntervalMs: nat)
    requires failures >= 1
    ensures ImapFailureBackoffMs(failures + 1, pollIntervalMs) == Min(MAX_IMAP_FAILURE_BACKOFF_MS, 2 * ImapFailureBackoffMs(failures, pollIntervalMs))
    ensures ImapFailureBackoffMs(1, pollIntervalMs) == Min(MAX_IMAP_FAILURE_BACKOFF_MS, if pollIntervalMs < MIN_BACKOFF_MS then MIN_BACKOFF_MS else pollIntervalMs)
  {
    var base := if pollIntervalMs < MIN_BACKOFF_MS then MIN_BACKOFF_MS else pollIntervalMs;
    if failures <= 10 {
      var p := Power2(failures - 1);
      assert base * (2 * p) == 2 * (base * p);
    } else {
      TenDoublings();
      assert base * 1024 >= 60_000 * 1024;
    }
  }

  /** So the wait is the interval, at least a minute, doubled once for each failure but the first, and at most an hour. */
  lemma {:induction false} BackoffIsExponential(failures: nat, pollIntervalMs: nat)
    requires failures >= 1
    ensures ImapFailureBackoffMs(failures, pollIntervalMs)
      == Min(3_600_000, (if pollIntervalMs < 60_000 then 60_000 else pollIntervalMs) * Power2(failures - 1))
  {
    hide ImapFailureBackoffMs;
    var base := if pollIntervalMs < MIN_BACKOFF_MS then MIN_BACKOFF_MS else pollIntervalMs;
    if failures == 1 {
      BackoffDoubles(1, pollIntervalMs);
    } else {
      var p := Power2(failures - 2);
      BackoffIsExponential(failures - 1, pollIntervalMs);
      BackoffDoubles(failures - 1, pollIntervalMs);
      assert Power2(failures - 1) == 2 * p;
      hide Power2;
      Doubled(base, p);
    }
  }

  lemma Doubled(base: nat, p: nat)
    ensures base * (2 * p) == 2 * (base * p)
  {}

  // ----- the invariant -----

  predicate MailboxOk(m: Mailbox, h: History) {
    m.present <= h.known && m.next >= 1 && forall u <- h.known :: 1 <= u < m.next
  }

  /** The connector has seen the present UIDVALIDITY. */
  predicate Current(s: System) {
    s.connector.uidValidity == Some(s.mailbox.validity)
  }

  predicate Accounted(m: Mailbox, h: History, u: nat) {
    u in h.committed || u in h.quarantined || u !in m.present || u in h.skipped
  }

  predicate CursorOk(s: System) {
    && CursorOf(s.connector.lastUid) < s.mailbox.next
    && forall u <- s.history.known :: u <= CursorOf(s.connector.lastUid) ==> Accounted(s.mailbox, s.history, u)
  }

  predicate FailureOk(s: System) {
    && s.connector.failedAttempts <= IMAP_UID_QUARANTINE_ATTEMPTS
    && (s.connector.failedUid.Some? ==>
          s.connector.failedValidity == Some(s.mailbox.validity) && s.connector.failedAttempts <= Failures(s.history, s.connector.failedUid.value))
  }

  predicate HistoryOk(h: History, cursor: nat) {
    && h.committed <= h.ingested
    && (forall u <- h.quarantined :: Failures(h, u) >= IMAP_UID_QUARANTINE_ATTEMPTS)
    && (forall u <- h.skipped :: u < h.base)
    && h.base <= cursor
  }

  function QueueOf(p: Phase): seq<nat> {
    match p
    case Working(queue, _) => queue
    case Committing(queue, _) => queue
    case Quarantining(queue) => queue
    case _ => []
  }

  /** The queue ascends above the cursor and leaves out nothing below its end that was listed. */
  predicate QueueOk(m: Mailbox, h: History, cursor: nat, queue: seq<nat>) {
    && Increasing(queue)
    && (forall u <- queue :: cursor < u < m.next)
    && (forall u <- m.present :: u > cursor ==> u in queue || u in h.unlisted || forall v <- queue :: v < u)
    && (!h.bootstrap ==> h.unlisted == {})
  }

  predicate PhaseOk(s: System) {
    && (!s.phase.Idle? ==> Current(s))
    && ((s.phase.Working? || s.phase.Committing? || s.phase.Quarantining?) ==>
          QueueOk(s.mailbox, s.history, CursorOf(s.connector.lastUid), QueueOf(s.phase)))
    && (s.phase.Committing? ==> s.phase.queue != [] && s.phase.queue[0] in s.history.ingested)
    && (s.phase.Quarantining? ==> s.phase.queue != [] && Failures(s.history, s.phase.queue[0]) >= IMAP_UID_QUARANTINE_ATTEMPTS)
  }

  predicate ValidityOk(s: System) {
    && (s.connector.uidValidity.Some? ==> s.connector.uidValidity.value <= s.mailbox.validity)
    && (s.connector.uidValidity.None? ==> s.connector.lastUid.None? && s.connector.failedUid.None?)
    && (s.connector.failedUid.Some? ==> s.connector.failedValidity == s.connector.uidValidity)
    && s.connector.failedAttempts <= IMAP_UID_QUARANTINE_ATTEMPTS
  }

  predicate Invariant(s: System) {
    && MailboxOk(s.mailbox, s.history) && ValidityOk(s) && PhaseOk(s)
    && (Current(s) ==> CursorOk(s) && FailureOk(s) && HistoryOk(s.history, CursorOf(s.connector.lastUid)))
    && (!Current(s) ==> s.history == FreshHistory(s.history.known))
  }

  lemma ArriveKeeps(s: System, uid: nat)
    requires Invariant(s)
    ensures Invariant(DoArrive(s, uid))
  {}

  lemma ExpungeKeeps(s: System, uid: nat)
    requires Invariant(s)
    ensures Invariant(Step(s, Expunge(uid)))
  {}

  lemma RenumberKeeps(s: System, validity: nat, uids: set<nat>, next: nat)
    requires Invariant(s)
    ensures Invariant(DoRenumber(s, validity, uids, next))
  {}

  lemma OpenKeeps(s: System)
    requires Invariant(s)
    ensures Invariant(DoOpen(s))
  {}

  lemma SearchKeeps(s: System, found: seq<nat>, limit: nat)
    requires Invariant(s)
    ensures Invariant(DoSearch(s, found, limit))
  {
    var t := DoSearch(s, found, limit);
    if t != s {
      var c := s.connector;
      EligibleAreSmallest(found, c.lastUid, limit);
      hide EligibleImapUids;
      var queue := EligibleImapUids(found, c.lastUid, limit);
      forall u | u in s.mailbox.present && u > CursorOf(c.lastUid)
        ensures u in queue || u in t.history.unlisted || forall v <- queue :: v < u
      {
        if !(u in queue) && u in found { assert forall v <- queue :: v < u; }
      }
      assert QueueOk(t.mailbox, t.history, CursorOf(c.lastUid), queue);
    }
  }

  lemma HeadIsLeast(queue: seq<nat>)
    requires Increasing(queue) && queue != []
    ensures forall u <- queue :: u >= queue[0]
  {
    forall u | u in queue ensures u >= queue[0] {
      var i :| 0 <= i < |queue| && queue[i] == u;
    }
  }

  /** The cursor passes the head of the queue: what lies between was left out of the search. */
  lemma PassedAccounted(m: Mailbox, h: History, k: History, cursor: nat, queue: seq<nat>)
    requires QueueOk(m, h, cursor, queue) && queue != [] && (queue[0] in k.committed || queue[0] in k.quarantined)
    requires h.committed <= k.committed && h.quarantined <= k.quarantined && k.known == h.known
    requires k.skipped == h.skipped + (set u | u in h.unlisted && u < queue[0])
    requires forall u <- h.known :: u <= cursor ==> Accounted(m, h, u)
    ensures forall u <- k.known :: u <= queue[0] ==> Accounted(m, k, u)
  {
    HeadIsLeast(queue);
    assert queue[0] in queue;
    hide Increasing;
    forall u | u in k.known && u <= queue[0] ensures Accounted(m, k, u) {
      if u <= cursor {
        assert Accounted(m, h, u);
      } else if u < queue[0] && u in m.present {
        assert u !in queue && u in h.unlisted;
      }
    }
  }

  lemma TailIncreases(queue: seq<nat>)
    requires queue != [] && Increasing(queue)
    ensures Increasing(queue[1..]) && forall u <- queue[1..] :: u in queue && queue[0] < u
    ensures forall u <- queue :: u == queue[0] || u in queue[1..]
  {
    var rest := queue[1..];
    forall u | u in rest ensures u in queue && queue[0] < u {
      var i :| 0 <= i < |rest| && rest[i] == u;
      assert queue[i + 1] == u;
    }
    assert queue == [queue[0]] + rest;
  }

  lemma QueueGoesOn(m: Mailbox, h: History, k: History, cursor: nat, queue: seq<nat>)
    requires QueueOk(m, h, cursor, queue) && queue != [] && k.unlisted == h.unlisted && k.bootstrap == h.bootstrap
    ensures cursor < queue[0] < m.next && QueueOk(m, k, queue[0], queue[1..])
  {
    TailIncreases(queue);
    hide Increasing;
    assert queue[0] in queue;
    forall u | u in m.present && u > queue[0] ensures u in queue[1..] || u in k.unlisted || forall v <- queue[1..] :: v < u {
      assert u in queue || u in h.unlisted || forall v <- queue :: v < u;
    }
  }

  /** The cursor passes the head of the queue, which has just been committed or quarantined. */
  lemma PassKeeps(s: System, t: System, uid: nat)
    requires Invariant(s) && (s.phase.Committing? || s.phase.Quarantining?) && s.phase.queue != [] && uid == s.phase.queue[0]
    requires t.mailbox == s.mailbox && CursorOf(t.connector.lastUid) == uid
    requires uid in t.history.committed || uid in t.history.quarantined
    requires s.history.committed <= t.history.committed && s.history.quarantined <= t.history.quarantined
    requires t.history.known == s.history.known && t.history.unlisted == s.history.unlisted && t.history.bootstrap == s.history.bootstrap
    requires t.history.skipped == s.history.skipped + (set u | u in s.history.unlisted && u < uid)
    ensures CursorOk(t) && QueueOk(t.mailbox, t.history, uid, s.phase.queue[1..])
    ensures !s.history.bootstrap ==> t.history.skipped == s.history.skipped
  {
    var queue, cursor := s.phase.queue, CursorOf(s.connector.lastUid);
    assert QueueOk(s.mailbox, s.history, cursor, queue);
    assert !s.history.bootstrap ==> s.history.unlisted == {};
    assert CursorOk(s);
    hide Invariant, QueueOk, Accounted;
    PassedAccounted(s.mailbox, s.history, t.history, cursor, queue);
    QueueGoesOn(s.mailbox, s.history, t.history, cursor, queue);
  }

  lemma CommitKeeps(s: System, receivedAt: Option<int>)
    requires Invariant(s)
    ensures Invariant(DoCommit(s, receivedAt))
  {
    if s.phase.Committing? && s.phase.queue != [] {
      var uid := s.phase.queue[0];
      assert uid in s.phase.queue;
      PassKeeps(s, DoCommit(s, receivedAt), uid);
      hide QueueOk, CursorOk;
      assert FailureOk(DoCommit(s, receivedAt));
    }
  }

  lemma QuarantineKeeps(s: System)
    requires Invariant(s)
    ensures Invariant(DoQuarantine(s))
  {
    if s.phase.Quarantining? && s.phase.queue != [] {
      var uid := s.phase.queue[0];
      assert uid in s.phase.queue;
      PassKeeps(s, DoQuarantine(s), uid);
      hide QueueOk, CursorOk;
    }
  }

  lemma FailSourceKeeps(s: System)
    requires Invariant(s)
    ensures Invariant(DoFailSource(s))
  {}

  lemma IngestKeeps(s: System)
    requires Invariant(s)
    ensures Invariant(DoIngest(s))
  {
    if s.phase.Working? && s.phase.queue != [] {
      var t := DoIngest(s);
      assert PhaseOk(t);
      assert CursorOk(t) && FailureOk(t);
    }
  }

  lemma QuietKeeps(s: System, e: Event)
    requires Invariant(s) && (e.Seed? || e.FailTransient? || e.Close? || e.Abort? || e.Crash?)
    ensures Invariant(Step(s, e))
  {
    hide Accounted, ImapFailureBackoffMs, Increasing;
  }

  lemma StepKeeps(s: System, e: Event)
    requires Invariant(s)
    ensures Invariant(Step(s, e))
  {
    match e
    case Arrive(uid) => ArriveKeeps(s, uid);
    case Expunge(uid) => ExpungeKeeps(s, uid);
    case Renumber(validity, uids, next) => RenumberKeeps(s, validity, uids, next);
    case Open => OpenKeeps(s);
    case Search(found, limit) => SearchKeeps(s, found, limit);
    case Ingest => IngestKeeps(s);
    case Commit(receivedAt) => CommitKeeps(s, receivedAt);
    case FailSource => FailSourceKeeps(s);
    case Quarantine => QuarantineKeeps(s);
    case _ => QuietKeeps(s, e);
  }

  predicate MailboxFits(m: Mailbox) {
    m.next >= 1 && forall u <- m.present :: 1 <= u < m.next
  }

  lemma {:induction false} RunKeeps(m: Mailbox, es: seq<Event>)
    requires MailboxFits(m)
    ensures Invariant(Run(Start(m), es))
  {
    hide Invariant, Step;
    if es == [] {
      StartIsFine(m);
    } else {
      RunKeeps(m, es[..|es| - 1]);
      StepKeeps(Run(Start(m), es[..|es| - 1]), es[|es| - 1]);
    }
  }

  lemma StartIsFine(m: Mailbox)
    requires MailboxFits(m)
    ensures Invariant(Start(m))
  {}

  // ----- cursor safety -----

  /** A later state of the same epoch, or a state of a later epoch. */
  predicate Later(s: System, t: System) {
    || t.mailbox.validity > s.mailbox.validity
    || (&& t.mailbox.validity == s.mailbox.validity && Current(t)
        && t.history.skipped == s.history.skipped && CursorOf(t.connector.lastUid) >= CursorOf(s.connector.lastUid)
        && (QueueOf(t.phase) != [] ==> !t.history.bootstrap))
  }

  lemma LaterStep(s: System, t: System, e: Event)
    requires Later(s, t) && Invariant(t) && CursorOf(s.connector.lastUid) > 0
    ensures Later(s, Step(t, e))
  {
    hide Accounted, ImapFailureBackoffMs, Increasing, EligibleImapUids, Answers;
    if t.phase.Committing? || t.phase.Quarantining? {
      assert QueueOk(t.mailbox, t.history, CursorOf(t.connector.lastUid), QueueOf(t.phase));
    }
  }

  lemma {:induction false} LaterRun(s: System, t: System, more: seq<Event>)
    requires Later(s, t) && Invariant(t) && CursorOf(s.connector.lastUid) > 0
    ensures Later(s, Run(t, more)) && Invariant(Run(t, more))
  {
    hide Later, Invariant, Step;
    if more != [] {
      LaterRun(s, t, more[..|more| - 1]);
      LaterStep(s, Run(t, more[..|more| - 1]), more[|more| - 1]);
      StepKeeps(Run(t, more[..|more| - 1]), more[|more| - 1]);
    }
  }

  lemma {:induction false} RunConcat(start: System, es: seq<Event>, more: seq<Event>)
    ensures Run(start, es + more) == Run(Run(start, es), more)
  {
    hide Step;
    if more == [] {
      assert es + more == es;
    } else {
      var all := es + more;
      assert all[..|all| - 1] == es + more[..|more| - 1];
      RunConcat(start, es, more[..|more| - 1]);
    }
  }

  /**
   Once a poll has left a cursor, then as long as the mailbox keeps its UIDVALIDITY the cursor never
   falls, and every UID it passed since was committed after ingestion, quarantined after at least
   three deterministic failures, or expunged.
   */
  lemma CursorSafety(m: Mailbox, es: seq<Event>, more: seq<Event>, uid: nat)
    requires MailboxFits(m)
    requires var s, t := Run(Start(m), es), Run(Start(m), es + more);
      s.phase.Idle? && Current(s) && CursorOf(s.connector.lastUid) > 0 && t.mailbox.validity == s.mailbox.validity
    ensures var s, t := Run(Start(m), es), Run(Start(m), es + more);
      && CursorOf(s.connector.lastUid) <= CursorOf(t.connector.lastUid)
      && (uid in t.history.known && CursorOf(s.connector.lastUid) < uid <= CursorOf(t.connector.lastUid) ==>
            || (uid in t.history.committed && uid in t.history.ingested)
            || (uid in t.history.quarantined && Failures(t.history, uid) >= 3)
            || uid !in t.mailbox.present)
  {
    hide Run, Failures;
    var s, t := Run(Start(m), es), Run(Start(m), es + more);
    RunConcat(Start(m), es, more);
    RunKeeps(m, es);
    LaterRun(s, s, more);
    if uid in t.history.known && CursorOf(s.connector.lastUid) < uid <= CursorOf(t.connector.lastUid) {
      assert Accounted(t.mailbox, t.history, uid);
    }
  }

  /** In every reachable state: what the cursor has passed is accounted for, and a search without a cursor is the only way to skip. */
  lemma EveryUidIsAccountedFor(m: Mailbox, es: seq<Event>, uid: nat)
    requires MailboxFits(m) && Current(Run(Start(m), es))
    ensures var s := Run(Start(m), es);
      uid in s.history.known && uid <= CursorOf(s.connector.lastUid) ==>
        uid in s.history.committed || uid in s.history.quarantined || uid !in s.mailbox.present || (uid in s.history.skipped && uid < s.history.base)
  {
    hide Run;
    RunKeeps(m, es);
    var s := Run(Start(m), es);
    if uid in s.history.known && uid <= CursorOf(s.connector.lastUid) { assert Accounted(s.mailbox, s.history, uid); }
  }

  // ----- what a search without a cursor skips -----

  /** Nothing skipped or left out was ever handled, and what was handled lies at or below the cursor. */
  predicate SkipOk(s: System) {
    && (forall u <- s.history.committed + s.history.quarantined ::
          u <= CursorOf(s.connector.lastUid) && u !in s.history.skipped && u !in s.history.unlisted)
    && (forall u <- QueueOf(s.phase) :: u !in s.history.unlisted)
  }

  lemma SearchSkipOk(s: System, found: seq<nat>, limit: nat)
    requires Invariant(s) && SkipOk(s)
    ensures SkipOk(DoSearch(s, found, limit))
  {
    EligibleAreSmallest(found, s.connector.lastUid, limit);
    hide EligibleImapUids, PhaseOk, FailureOk, Accounted;
  }

  lemma TailIn(queue: seq<nat>)
    requires queue != []
    ensures queue[0] in queue && forall u <- queue[1..] :: u in queue
  {}

  lemma PassSkipOk(s: System, t: System, uid: nat)
    requires Invariant(s) && SkipOk(s) && (s.phase.Committing? || s.phase.Quarantining?) && s.phase.queue != [] && uid == s.phase.queue[0]
    requires CursorOf(t.connector.lastUid) == uid && QueueOf(t.phase) == s.phase.queue[1..]
    requires t.history.committed + t.history.quarantined == s.history.committed + s.history.quarantined + {uid}
    requires t.history.unlisted == s.history.unlisted && t.history.skipped == s.history.skipped + (set u | u in s.history.unlisted && u < uid)
    ensures SkipOk(t)
  {
    TailIn(s.phase.queue);
    hide Accounted, FailureOk, Increasing, MailboxOk;
    assert QueueOk(s.mailbox, s.history, CursorOf(s.connector.lastUid), s.phase.queue);
  }

  lemma CommitSkipOk(s: System, receivedAt: Option<int>)
    requires Invariant(s) && SkipOk(s)
    ensures SkipOk(DoCommit(s, receivedAt))
  {
    if s.phase.Committing? && s.phase.queue != [] {
      TailIn(s.phase.queue);
      assert QueueOk(s.mailbox, s.history, CursorOf(s.connector.lastUid), s.phase.queue);
      hide SkipOk, Invariant, QueueOk;
      PassSkipOk(s, DoCommit(s, receivedAt), s.phase.queue[0]);
    }
  }

  lemma QuarantineSkipOk(s: System)
    requires Invariant(s) && SkipOk(s)
    ensures SkipOk(DoQuarantine(s))
  {
    if s.phase.Quarantining? && s.phase.queue != [] {
      TailIn(s.phase.queue);
      assert QueueOk(s.mailbox, s.history, CursorOf(s.connector.lastUid), s.phase.queue);
      hide SkipOk, Invariant, QueueOk;
      PassSkipOk(s, DoQuarantine(s), s.phase.queue[0]);
    }
  }

  /** The other steps handle nothing; only a new UIDVALIDITY makes the cursor fall, and it clears the history. */
  lemma OtherSkipOk(s: System, e: Event)
    requires Invariant(s) && SkipOk(s) && !e.Search? && !e.Commit? && !e.Quarantine?
    ensures SkipOk(Step(s, e))
  {
    hide Accounted, FailureOk, QueueOk, MailboxOk, HistoryOk, CursorOk, ImapFailureBackoffMs;
  }

  lemma StepSkipOk(s: System, e: Event)
    requires Invariant(s) && SkipOk(s)
    ensures SkipOk(Step(s, e))
  {
    hide Invariant, SkipOk, DoSearch, DoCommit, DoQuarantine;
    match e
    case Search(found, limit) => SearchSkipOk(s, found, limit);
    case Commit(receivedAt) => CommitSkipOk(s, receivedAt);
    case Quarantine => QuarantineSkipOk(s);
    case _ => OtherSkipOk(s, e);
  }

  lemma {:induction false} RunSkipOk(m: Mailbox, es: seq<Event>)
    requires MailboxFits(m)
    ensures SkipOk(Run(Start(m), es))
  {
    hide Invariant, SkipOk, Step, MailboxFits;
    if es == [] {
      StartSkipOk(m);
    } else {
      RunSkipOk(m, es[..|es| - 1]);
      RunKeeps(m, es[..|es| - 1]);
      StepSkipOk(Run(Start(m), es[..|es| - 1]), es[|es| - 1]);
    }
  }

  lemma StartSkipOk(m: Mailbox)
    ensures SkipOk(Start(m))
  {}

  /** In a later epoch, or with everything skipped still skipped. */
  predicate StillSkipped(s: System, t: System) {
    t.mailbox.validity > s.mailbox.validity || (t.mailbox.validity == s.mailbox.validity && s.history.skipped <= t.history.skipped)
  }

  lemma StepStillSkipped(s: System, t: System, e: Event)
    requires StillSkipped(s, t)
    ensures StillSkipped(s, Step(t, e))
  {
    hide EligibleImapUids, Answers, ImapFailureBackoffMs;
  }

  lemma {:induction false} RunStillSkipped(s: System, more: seq<Event>)
    ensures StillSkipped(s, Run(s, more))
  {
    hide StillSkipped, Step;
    if more == [] {
      SameStillSkipped(s);
    } else {
      RunStillSkipped(s, more[..|more| - 1]);
      StepStillSkipped(s, Run(s, more[..|more| - 1]), more[|more| - 1]);
    }
  }

  lemma SameStillSkipped(s: System)
    ensures StillSkipped(s, s)
  {}

  /**
   Skipped is for good: a UID that a search without a cursor left out, and that a later UID has passed,
   is committed or quarantined neither now nor in any continuation with the same UIDVALIDITY.
   */
  lemma SkippedIsNeverHandled(m: Mailbox, es: seq<Event>, more: seq<Event>, uid: nat)
    requires MailboxFits(m) && uid in Run(Start(m), es).history.skipped
    requires Run(Start(m), es + more).mailbox.validity == Run(Start(m), es).mailbox.validity
    ensures var t := Run(Start(m), es + more);
      uid in t.history.skipped && uid !in t.history.committed && uid !in t.history.quarantined
  {
    hide Run;
    RunConcat(Start(m), es, more);
    RunStillSkipped(Run(Start(m), es), more);
    RunSkipOk(m, es + more);
  }

  /**
   In every reachable state a message still present at or below the cursor was committed or quarantined
   if and only if it is not one that a search without a cursor left out and the cursor then passed.
   */
  lemma HandledUnlessSkipped(m: Mailbox, es: seq<Event>, uid: nat)
    requires MailboxFits(m) && Current(Run(Start(m), es))
    ensures var s := Run(Start(m), es);
      uid in s.mailbox.present && uid <= CursorOf(s.connector.lastUid) ==>
        (uid in s.history.committed || uid in s.history.quarantined <==> uid !in s.history.skipped)
  {
    RunSkipOk(m, es);
    RunKeeps(m, es);
    EveryUidIsAccountedFor(m, es, uid);
    hide Run, Current, ValidityOk, PhaseOk, CursorOk, FailureOk, HistoryOk, MailboxFits;
  }

  /** Every search lists all the UIDs that are present. */
  predicate ListsAll(start: System, es: seq<Event>) {
    forall k :: 0 <= k < |es| && es[k].Search? ==> forall u <- Run(start, es[..k]).mailbox.present :: u in es[k].found
  }

  lemma StepSkipsNone(s: System, e: Event)
    requires s.history.unlisted == {} && s.history.skipped == {}
    requires e.Search? ==> forall u <- s.mailbox.present :: u in e.found
    ensures Step(s, e).history.unlisted == {} && Step(s, e).history.skipped == {}
  {
    hide EligibleImapUids, ImapFailureBackoffMs;
  }

  /** A poller whose searches list everything present skips nothing, with or without a cursor. */
  lemma {:induction false} FullSearchesSkipNone(m: Mailbox, es: seq<Event>)
    requires ListsAll(Start(m), es)
    ensures Run(Start(m), es).history.unlisted == {} && Run(Start(m), es).history.skipped == {}
  {
    hide Step;
    if es != [] {
      var front := es[..|es| - 1];
      forall k | 0 <= k < |front| ensures front[..k] == es[..k] {}
      FullSearchesSkipNone(m, front);
      StepSkipsNone(Run(Start(m), front), es[|es| - 1]);
    }
  }

  // A mailbox of three messages.
  const THREE := Mailbox(7, {1, 2, 3}, 4)

  function During(lastUid: Option<nat>, phase: Phase, ingested: set<nat>, committed: set<nat>, skipped: set<nat>): System {
    System(THREE, NEW_CONNECTOR.(uidValidity := Some(7), lastUid := lastUid), phase,
      History({1, 2, 3}, ingested, committed, {}, map[], {2}, true, skipped, CursorOf(lastUid)))
  }

  lemma FirstSearch()
    ensures Step(Step(Start(THREE), Open), Search([1, 3], 10)) == During(None, Working([1, 3], false), {}, {}, {})
  {
    assert [1, 3][1..] == [3] && [3][1..] == [];
    assert SortAbove([3], 0) == [3];
    assert SortAbove([1, 3], 0) == [1, 3];
    assert EligibleImapUids([1, 3], None, 10) == [1, 3];
    hide EligibleImapUids, SortAbove;
    assert (set u | u in THREE.present && u !in [1, 3]) == {2};
  }

  lemma FirstCommit()
    ensures Step(Step(During(None, Working([1, 3], false), {}, {}, {}), Ingest), Commit(None)) == During(Some(1), Working([3], false), {1}, {1}, {})
  {
    assert [1, 3][1..] == [3];
    var unlisted := {2};
    assert (set u | u in unlisted && u < 1) == {};
  }

  lemma SecondCommit()
    ensures Step(Step(During(Some(1), Working([3], false), {1}, {1}, {}), Ingest), Commit(None)) == During(Some(3), Working([], false), {1, 3}, {1, 3}, {2})
  {
    assert [3][1..] == [];
    var unlisted := {2};
    assert (set u | u in unlisted && u < 3) == {2};
  }

  const FIRST_POLL := [Open, Search([1, 3], 10), Ingest, Commit(None), Ingest, Commit(None)]

  /** Such a run: the second of three messages is not listed, and after the first poll no continuation handles it. */
  lemma FirstPollSkips(more: seq<Event>)
    ensures var s := Run(Start(THREE), FIRST_POLL);
      s.connector.lastUid == Some(3) && s.phase == Working([], false) && 2 in s.mailbox.present && 2 in s.history.skipped
    ensures var t := Run(Start(THREE), FIRST_POLL + more);
      t.mailbox.validity == THREE.validity ==> 2 !in t.history.committed && 2 !in t.history.quarantined
  {
    hide Step, Run;
    FirstSearch();
    FirstCommit();
    SecondCommit();
    var front := [Open, Search([1, 3], 10), Ingest];
    ThreeSteps(Start(THREE), Open, Search([1, 3], 10), Ingest);
    ThreeSteps(Run(Start(THREE), front), Commit(None), Ingest, Commit(None));
    RunConcat(Start(THREE), front, [Commit(None), Ingest, Commit(None)]);
    assert front + [Commit(None), Ingest, Commit(None)] == FIRST_POLL;
    if Run(Start(THREE), FIRST_POLL + more).mailbox.validity == THREE.validity {
      SkippedIsNeverHandled(THREE, FIRST_POLL, more, 2);
    }
  }

  lemma ThreeSteps(s: System, a: Event, b: Event, c: Event)
    ensures Run(s, [a, b, c]) == Step(Step(Step(s, a), b), c)
  {
    hide Step;
    OneStep(s, [], a);
    OneStep(s, [a], b);
    OneStep(s, [a, b], c);
    assert [] + [a] == [a] && [a] + [b] == [a, b] && [a, b] + [c] == [a, b, c];
  }

  lemma OneStep(s: System, es: seq<Event>, e: Event)
    ensures Run(s, es + [e]) == Step(Run(s, es), e)
  {
    hide Step;
    assert (es + [e])[..|es|] == es;
  }

  // ----- failures -----

  /** This event moves the cursor to `u`: just ingested, or failed three times. */
  predicate SetsCursor(s: System, e: Event, u: nat) {
    || (e.Commit? && s.phase.Committing? && s.phase.queue != [] && s.phase.queue[0] == u && u in s.history.ingested)
    || (e.Quarantine? && s.phase.Quarantining? && s.phase.queue != [] && s.phase.queue[0] == u
        && Failures(s.history, u) >= IMAP_UID_QUARANTINE_ATTEMPTS)
  }

  /**
   The cursor moves only when the head of the queue was ingested or had failed three times, and it
   is cleared only for a new UIDVALIDITY.
   */
  lemma CursorMovesOnlyForReason(s: System, e: Event)
    requires Invariant(s)
    ensures var t := Step(s, e).connector.lastUid;
      t != s.connector.lastUid ==> (t.Some? && SetsCursor(s, e, t.value)) || (e.Open? && !Current(s) && t.None?)
  {
    hide Accounted, ImapFailureBackoffMs, Increasing, EligibleImapUids, Answers;
    if s.phase.Committing? || s.phase.Quarantining? {
      assert s.phase.queue[0] in s.phase.queue;
      assert QueueOk(s.mailbox, s.history, CursorOf(s.connector.lastUid), QueueOf(s.phase));
    }
  }

  /** In every reachable state the cursor was put where it is by the commit or the quarantine of just that UID. */
  lemma {:induction false} CursorHasReason(m: Mailbox, es: seq<Event>) returns (k: nat)
    requires MailboxFits(m) && Run(Start(m), es).connector.lastUid.Some?
    ensures k < |es| && SetsCursor(Run(Start(m), es[..k]), es[k], Run(Start(m), es).connector.lastUid.value)
    decreases |es|
  {
    hide Step, Invariant;
    if es == [] {
      assert false;
    } else {
      var front, last := es[..|es| - 1], es[|es| - 1];
      var s := Run(Start(m), front);
      RunKeeps(m, front);
      CursorMovesOnlyForReason(s, last);
      if Step(s, last).connector.lastUid == s.connector.lastUid {
        k := CursorHasReason(m, front);
        assert front[..k] == es[..k];
      } else {
        k := |es| - 1;
      }
    }
  }

  predicate MovesNoCursor(e: Event) {
    !e.Renumber? && !e.Commit? && !e.FailSource? && !e.Quarantine?
  }

  predicate SameCursor(s: System, t: System) {
    && t.connector.lastUid == s.connector.lastUid && t.connector.failedUid == s.connector.failedUid
    && t.connector.failedAttempts == s.connector.failedAttempts && t.connector.failedValidity == s.connector.failedValidity
  }

  lemma StepSameCursor(s: System, e: Event)
    requires Current(s) && MovesNoCursor(e)
    ensures SameCursor(s, Step(s, e)) && Current(Step(s, e))
  {
    hide ImapFailureBackoffMs, EligibleImapUids, Answers;
  }

  /** However often polls are aborted, crash or fail transiently, the cursor and the failure counter stay as they are. */
  lemma {:induction false} FailuresKeepCursor(s: System, es: seq<Event>)
    requires Current(s) && forall e <- es :: MovesNoCursor(e)
    ensures SameCursor(s, Run(s, es)) && Current(Run(s, es))
  {
    hide Step, MovesNoCursor;
    if es != [] {
      assert es[|es| - 1] in es && forall e <- es[..|es| - 1] :: e in es;
      FailuresKeepCursor(s, es[..|es| - 1]);
      StepSameCursor(Run(s, es[..|es| - 1]), es[|es| - 1]);
    }
  }

  /** How many UIDs the cursor still has to pass. */
  function Left(s: System): int {
    s.mailbox.next - 1 - CursorOf(s.connector.lastUid)
  }

  function Tries(s: System, uid: nat): nat {
    PriorAttempts(s.connector, uid, s.mailbox.validity)
  }

  /** Fewer UIDs left, or as many and one more try at the same UID. */
  predicate Down(s: System, t: System, head: nat) {
    Left(t) < Left(s) || (Left(t) == Left(s) && Tries(t, head) > Tries(s, head))
  }

  /** Where a poll is that started at `s` with `head` first: nothing lost, and some progress unless the head is still pending. */
  predicate Underway(s: System, t: System, head: nat) {
    && t.mailbox == s.mailbox && !t.phase.Idle? && !t.phase.Opened?
    && Tries(t, head) <= IMAP_UID_QUARANTINE_ATTEMPTS
    && (|| Left(t) < Left(s)
        || (&& Left(t) == Left(s)
            && (|| ((t.phase.Working? || t.phase.Committing?) && t.phase.queue != [] && t.phase.queue[0] == head && Tries(t, head) == Tries(s, head))
                || (t.phase.Quarantining? && t.phase.queue != [] && t.phase.queue[0] == head)
                || (t.phase.Closing? && Tries(t, head) > Tries(s, head)))))
  }

  predicate IsOutcome(e: Event) {
    e.Ingest? || e.Commit? || e.FailSource? || e.Quarantine?
  }

  lemma OutcomeKeepsUnderway(s: System, t: System, head: nat, e: Event)
    requires Invariant(t) && Underway(s, t, head) && IsOutcome(e)
    ensures Underway(s, Step(t, e), head)
  {
    hide Accounted, CursorOk, FailureOk, HistoryOk, MailboxOk;
    if QueueOf(t.phase) != [] {
      assert QueueOf(t.phase)[0] in QueueOf(t.phase);
      assert QueueOk(t.mailbox, t.history, CursorOf(t.connector.lastUid), QueueOf(t.phase));
    }
  }

  lemma {:induction false} OutcomesKeepUnderway(s: System, t: System, head: nat, outcomes: seq<Event>)
    requires Invariant(t) && Underway(s, t, head) && forall e <- outcomes :: IsOutcome(e)
    ensures Invariant(Run(t, outcomes)) && Underway(s, Run(t, outcomes), head)
  {
    hide Invariant, Underway, Step, IsOutcome;
    if outcomes != [] {
      var front, last := outcomes[..|outcomes| - 1], outcomes[|outcomes| - 1];
      assert last in outcomes && forall e <- front :: e in outcomes;
      OutcomesKeepUnderway(s, t, head, front);
      StepKeeps(Run(t, front), last);
      OutcomeKeepsUnderway(s, Run(t, front), head, last);
    }
  }

  /** With a backlog and a cursor, the search gives the poll something to do. */
  lemma BacklogIsFound(s: System, found: seq<nat>, limit: nat, uid: nat)
    requires Invariant(s) && s.phase.Opened? && CursorOf(s.connector.lastUid) > 0 && limit >= 1
    requires uid in s.mailbox.present && uid > CursorOf(s.connector.lastUid)
    requires Answers(s.mailbox, BuildImapSearchCriteria(s.connector), found)
    ensures var t := DoSearch(s, found, limit); t.phase.Working? && t.phase.queue != [] && t.mailbox == s.mailbox && t.connector == s.connector
  {
    EligibleAreSmallest(found, s.connector.lastUid, limit);
    hide EligibleImapUids, MailboxOk, PhaseOk, CursorOk, FailureOk;
    var r := EligibleImapUids(found, s.connector.lastUid, limit);
    assert uid in r || |r| == limit;
  }

  /**
   A poll that runs undisturbed and without a transient failure makes progress on a backlog: the
   cursor moves up, or the UID it stops at has been tried once more, and it can be tried three times.
   */
  lemma PollGoesDown(s: System, found: seq<nat>, limit: nat, outcomes: seq<Event>, interval: nat, now: int, uid: nat)
    requires Invariant(s) && s.phase.Idle? && Current(s) && CursorOf(s.connector.lastUid) > 0 && limit >= 1
    requires uid in s.mailbox.present && uid > CursorOf(s.connector.lastUid)
    requires Answers(s.mailbox, BuildImapSearchCriteria(s.connector), found) && forall e <- outcomes :: IsOutcome(e)
    requires Step(Run(DoSearch(DoOpen(s), found, limit), outcomes), Close(interval, now)).phase.Idle?
    ensures var ready := DoSearch(DoOpen(s), found, limit); var t := Step(Run(ready, outcomes), Close(interval, now));
      && ready.phase.Working? && ready.phase.queue != [] && Down(s, t, ready.phase.queue[0])
      && Tries(t, ready.phase.queue[0]) <= 3 && Left(t) >= 0
  {
    OpenKeeps(s);
    BacklogIsFound(DoOpen(s), found, limit, uid);
    SearchKeeps(DoOpen(s), found, limit);
    var ready := DoSearch(DoOpen(s), found, limit);
    var head := ready.phase.queue[0];
    TriesBounded(s, head);
    hide Invariant, Run, EligibleImapUids, Answers;
    OutcomesKeepUnderway(s, ready, head, outcomes);
    var r := Run(ready, outcomes);
    StepKeeps(r, Close(interval, now));
    CloseGoesDown(s, r, head, interval, now);
    LeftIsNatural(Step(r, Close(interval, now)));
  }

  lemma TriesBounded(s: System, uid: nat)
    requires Invariant(s)
    ensures Tries(s, uid) <= IMAP_UID_QUARANTINE_ATTEMPTS
  {}

  lemma LeftIsNatural(s: System)
    requires Invariant(s) && Current(s)
    ensures Left(s) >= 0
  {}

  lemma CloseGoesDown(s: System, r: System, head: nat, interval: nat, now: int)
    requires Invariant(r) && Underway(s, r, head) && !r.phase.Idle? && Step(r, Close(interval, now)).phase.Idle?
    ensures var t := Step(r, Close(interval, now)); Down(s, t, head) && Current(t) && Tries(t, head) <= IMAP_UID_QUARANTINE_ATTEMPTS
  {
    hide Accounted, CursorOk, FailureOk, HistoryOk, MailboxOk, ImapFailureBackoffMs;
  }
}
