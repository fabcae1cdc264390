/** What a connector remembers between polls: when it is polled next, the newest date, and the failures of one message. */
module ImapPolls {
  import opened Wrappers
  import opened ImapProtocol
  import opened ImapTheorems

  /** The event at `k` ends a poll with a failure: an abort, a close after a failed message, or after one was put aside. */
  predicate FailsAt(start: System, es: seq<Event>, k: nat)
    requires k < |es|
  {
    var phase := Run(start, es[..k]).phase;
    es[k].Abort? || (es[k].Close? && (phase == Closing || phase == Working([], true)))
  }

  /** The event at `k` ends a poll that went through. */
  predicate SucceedsAt(start: System, es: seq<Event>, k: nat)
    requires k < |es|
  {
    es[k].Close? && Run(start, es[..k]).phase == Working([], false)
  }

  /** The failed polls since the last one that went through. */
  function FailuresInARow(start: System, es: seq<Event>, n: nat): set<nat>
    requires n <= |es|
  {
    set k | 0 <= k < n && FailsAt(start, es, k) && forall j :: k < j < n ==> !SucceedsAt(start, es, j)
  }

  lemma OneStep(start: System, es: seq<Event>, n: nat)
    requires n < |es|
    ensures Run(start, es[..n + 1]) == Step(Run(start, es[..n]), es[n])
  {
    hide Step;
    assert es[..n + 1][..n] == es[..n];
  }

  lemma OneMoreRow(start: System, es: seq<Event>, n: nat)
    requires n < |es|
    ensures FailuresInARow(start, es, n + 1) ==
      if SucceedsAt(start, es, n) then {}
      else if FailsAt(start, es, n) then FailuresInARow(start, es, n) + {n}
      else FailuresInARow(start, es, n)
    ensures !(SucceedsAt(start, es, n) && FailsAt(start, es, n))
  {
    var before, after := FailuresInARow(start, es, n), FailuresInARow(start, es, n + 1);
    assert !(SucceedsAt(start, es, n) && FailsAt(start, es, n));
    hide FailsAt, SucceedsAt;
    forall k | k in after && k < n ensures !SucceedsAt(start, es, n) && k in before {}
    if !SucceedsAt(start, es, n) {
      forall k | k in before ensures k in after {
        forall j | k < j < n + 1 ensures !SucceedsAt(start, es, j) {}
      }
    }
  }

  /** What a step does to the poll state: only the end of a poll touches it. */
  lemma StepPolls(s: System, e: Event)
    ensures var c, d := s.connector, Step(s, e).connector;
      && (e.Close? && s.phase == Working([], false) ==> d.consecutiveFailures == 0 && d.nextPollAt == Some(e.now + e.interval))
      && (e.Close? && (s.phase == Closing || s.phase == Working([], true)) ==>
        && d.consecutiveFailures == c.consecutiveFailures + 1
        && d.nextPollAt == Some(e.now + ImapFailureBackoffMs(c.consecutiveFailures + 1, e.interval)))
      && (e.Abort? ==>
        && d.consecutiveFailures == c.consecutiveFailures + 1
        && d.nextPollAt == Some(e.time + ImapFailureBackoffMs(c.consecutiveFailures + 1, e.interval)))
      && (!e.Abort? && !(e.Close? && (s.phase == Closing || s.phase == Working([], true) || s.phase == Working([], false))) ==>
        d.consecutiveFailures == c.consecutiveFailures && d.nextPollAt == c.nextPollAt)
      && (e.Abort? || (e.Close? && (s.phase == Closing || s.phase == Working([], true) || s.phase == Working([], false))) ==> Step(s, e).phase == Idle)
  {
    hide ImapFailureBackoffMs, EligibleImapUids, Answers, BuildImapSearchCriteria, Passed;
  }

  lemma {:induction false} CountsTheRow(m: Mailbox, es: seq<Event>, n: nat)
    requires n <= |es|
    ensures Run(Start(m), es[..n]).connector.consecutiveFailures == |FailuresInARow(Start(m), es, n)|
  {
    hide Run, Step, FailuresInARow;
    if n == 0 {
      NoneYet(m, es);
    } else {
      CountsTheRow(m, es, n - 1);
      OneStep(Start(m), es, n - 1);
      OneMoreRow(Start(m), es, n - 1);
      StepPolls(Run(Start(m), es[..n - 1]), es[n - 1]);
      RowIsBelow(Start(m), es, n - 1);
    }
  }

  lemma NoneYet(m: Mailbox, es: seq<Event>)
    ensures Run(Start(m), es[..0]).connector.consecutiveFailures == 0 && FailuresInARow(Start(m), es, 0) == {}
  {
    assert es[..0] == [];
  }

  lemma RowIsBelow(start: System, es: seq<Event>, n: nat)
    requires n <= |es|
    ensures n !in FailuresInARow(start, es, n)
  {}

  lemma {:induction false} NextPollStays(start: System, es: seq<Event>, i: nat, n: nat)
    requires i <= n <= |es| && forall k :: i <= k < n ==> !FailsAt(start, es, k) && !SucceedsAt(start, es, k)
    ensures Run(start, es[..n]).connector.nextPollAt == Run(start, es[..i]).connector.nextPollAt
    decreases n
  {
    hide Run, Step;
    if i < n {
      NextPollStays(start, es, i, n - 1);
      OneStep(start, es, n - 1);
      assert !FailsAt(start, es, n - 1) && !SucceedsAt(start, es, n - 1);
      StepPolls(Run(start, es[..n - 1]), es[n - 1]);
    }
  }

  /** The wait after `n` failures in a row: the interval, but at least a minute, doubled for each but the first, and at most an hour. */
  function Wait(n: nat, interval: nat): nat
    requires n >= 1
  {
    var base := if interval < 60_000 then 60_000 else interval;
    if base * Power2(n - 1) > 3_600_000 then 3_600_000 else base * Power2(n - 1)
  }

  lemma WaitIs(n: nat, interval: nat)
    requires n >= 1
    ensures ImapFailureBackoffMs(n, interval) == Wait(n, interval)
  {
    BackoffIsExponential(n, interval);
    hide ImapFailureBackoffMs, Power2;
  }

  lemma PowersOfTwo(n: nat)
    ensures Power2(0) == 1 && Power2(n + 1) == 2 * Power2(n)
  {}

  /**
   In every run the next poll is due after the last poll that ended: the interval later if it went
   through, and otherwise after the wait for as many failures in a row as there have been since a poll
   last went through. Nothing else moves it.
   */
  lemma NextPollIsDue(m: Mailbox, es: seq<Event>, i: nat)
    requires i < |es| && forall k :: i + 1 <= k < |es| ==> !FailsAt(Start(m), es, k) && !SucceedsAt(Start(m), es, k)
    ensures SucceedsAt(Start(m), es, i) ==> Run(Start(m), es).connector.nextPollAt == Some(es[i].now + es[i].interval)
    ensures FailsAt(Start(m), es, i) ==>
      && i in FailuresInARow(Start(m), es, |es|)
      && Run(Start(m), es).connector.nextPollAt ==
        Some((if es[i].Abort? then es[i].time else es[i].now) + Wait(|FailuresInARow(Start(m), es, |es|)|, es[i].interval))
  {
    hide *;
    assert es[..|es|] == es;
    PollEndsAt(m, es, i);
    NextPollStays(Start(m), es, i + 1, |es|);
    RowStays(Start(m), es, i + 1, |es|);
  }

  lemma PollEndsAt(m: Mailbox, es: seq<Event>, i: nat)
    requires i < |es|
    ensures SucceedsAt(Start(m), es, i) ==> Run(Start(m), es[..i + 1]).connector.nextPollAt == Some(es[i].now + es[i].interval)
    ensures FailsAt(Start(m), es, i) ==>
      && i in FailuresInARow(Start(m), es, i + 1)
      && Run(Start(m), es[..i + 1]).connector.nextPollAt ==
        Some((if es[i].Abort? then es[i].time else es[i].now) + Wait(|FailuresInARow(Start(m), es, i + 1)|, es[i].interval))
  {
    hide Run, Step, Wait, FailuresInARow, ImapFailureBackoffMs;
    OneStep(Start(m), es, i);
    StepPolls(Run(Start(m), es[..i]), es[i]);
    CountsTheRow(m, es, i);
    OneMoreRow(Start(m), es, i);
    RowIsBelow(Start(m), es, i);
    if FailsAt(Start(m), es, i) { WaitIs(|FailuresInARow(Start(m), es, i)| + 1, es[i].interval); }
  }

  lemma {:induction false} RowStays(start: System, es: seq<Event>, i: nat, n: nat)
    requires i <= n <= |es| && forall k :: i <= k < n ==> !FailsAt(start, es, k) && !SucceedsAt(start, es, k)
    ensures FailuresInARow(start, es, n) == FailuresInARow(start, es, i)
    decreases n
  {
    hide FailsAt, SucceedsAt, FailuresInARow;
    if i < n {
      RowStays(start, es, i, n - 1);
      OneMoreRow(start, es, n - 1);
    }
  }

  // ----- opening and searching -----

  /** Opening a mailbox under a new UIDVALIDITY forgets the cursor, the date and the counted failures; otherwise it forgets nothing. */
  lemma OpenSynchronizes(s: System)
    requires s.phase == Idle
    ensures var c, d := s.connector, Step(s, Open).connector;
      && d.uidValidity == Some(s.mailbox.validity) && Step(s, Open).phase == Opened && Step(s, Open).mailbox == s.mailbox
      && d.consecutiveFailures == c.consecutiveFailures && d.nextPollAt == c.nextPollAt
      && (c.uidValidity.Some? && c.uidValidity != Some(s.mailbox.validity) ==>
        d.lastUid == None && d.lastReceivedAt == None && d.failedUid == None && d.failedAttempts == 0 && d.failedValidity == None)
      && (c.uidValidity == None || c.uidValidity == Some(s.mailbox.validity) ==> d == c.(uidValidity := Some(s.mailbox.validity)))
  {}

  /** With a cursor the search asks for the UIDs above it, without one for what came since the date, and without that for what is unseen. */
  lemma SearchAsks(c: Connector)
    ensures c.lastUid.Some? && c.lastUid.value > 0 ==> BuildImapSearchCriteria(c) == FromUid(c.lastUid.value + 1)
    ensures (c.lastUid == None || c.lastUid.value == 0) && c.lastReceivedAt.Some? ==> BuildImapSearchCriteria(c) == Since(c.lastReceivedAt.value)
    ensures (c.lastUid == None || c.lastUid.value == 0) && c.lastReceivedAt == None ==> BuildImapSearchCriteria(c) == Unseen
  {}

  // ----- the newest date -----

  /** The event brings a date: of a message that is committed, or of an older import before there is a cursor or a date. */
  predicate Brings(s: System, e: Event, date: int) {
    || (e == Commit(Some(date)) && s.phase.Committing? && s.phase.queue != [])
    || (e == Seed(Some(date)) && s.phase == Idle && s.connector.lastReceivedAt == None && (s.connector.lastUid == None || s.connector.lastUid == Some(0)))
  }

  predicate NoRenumber(es: seq<Event>) {
    forall e <- es :: !e.Renumber?
  }

  lemma StepDates(s: System, e: Event)
    ensures var c, d := s.connector, Step(s, e).connector;
      && (Current(s) && !e.Renumber? ==> Current(Step(s, e)))
      && (Current(s) && !e.Renumber? && c.lastReceivedAt.Some? ==> d.lastReceivedAt.Some? && d.lastReceivedAt.value >= c.lastReceivedAt.value)
      && (forall date :: Brings(s, e, date) ==> d.lastReceivedAt.Some? && d.lastReceivedAt.value >= date)
      && (d.lastReceivedAt != c.lastReceivedAt ==> d.lastReceivedAt == None || Brings(s, e, d.lastReceivedAt.value))
  {
    hide ImapFailureBackoffMs, EligibleImapUids, Answers, BuildImapSearchCriteria, Passed;
  }

  /** As long as the mailbox keeps its UIDVALIDITY the date never falls, and it is at least as new as every date brought in. */
  lemma {:induction false} DateIsNewest(m: Mailbox, es: seq<Event>, i: nat, n: nat, date: int)
    requires i < n <= |es| && NoRenumber(es[i + 1..n])
    requires Brings(Run(Start(m), es[..i]), es[i], date) && Current(Run(Start(m), es[..i + 1]))
    ensures Current(Run(Start(m), es[..n]))
    ensures var c := Run(Start(m), es[..n]).connector; c.lastReceivedAt.Some? && c.lastReceivedAt.value >= date
    decreases n
  {
    hide Run, Step, Brings;
    if n == i + 1 {
      OneStep(Start(m), es, i);
      StepDates(Run(Start(m), es[..i]), es[i]);
    } else {
      assert es[n - 1] in es[i + 1..n];
      forall e | e in es[i + 1..n - 1] ensures !e.Renumber? { assert e in es[i + 1..n]; }
      DateIsNewest(m, es, i, n - 1, date);
      OneStep(Start(m), es, n - 1);
      StepDates(Run(Start(m), es[..n - 1]), es[n - 1]);
    }
  }

  /** The date was brought in by an event of the run. */
  lemma {:induction false} DateHasReason(m: Mailbox, es: seq<Event>, n: nat) returns (k: nat)
    requires n <= |es| && Run(Start(m), es[..n]).connector.lastReceivedAt.Some?
    ensures k < n && Brings(Run(Start(m), es[..k]), es[k], Run(Start(m), es[..n]).connector.lastReceivedAt.value)
    decreases n
  {
    hide Step, Brings;
    if n == 0 {
      assert false;
    } else {
      OneStep(Start(m), es, n - 1);
      hide Run;
      StepDates(Run(Start(m), es[..n - 1]), es[n - 1]);
      k := n - 1;
      if Run(Start(m), es[..n]).connector.lastReceivedAt == Run(Start(m), es[..n - 1]).connector.lastReceivedAt {
        k := DateHasReason(m, es, n - 1);
      }
    }
  }

  // ----- the failures of one message -----

  /** The event at `k` is a deterministic failure of this message. */
  predicate FailsOn(start: System, es: seq<Event>, k: nat, uid: nat)
    requires k < |es|
  {
    var phase := Run(start, es[..k]).phase;
    es[k].FailSource? && phase.Working? && phase.queue != [] && phase.queue[0] == uid
  }

  function FailuresOn(start: System, es: seq<Event>, n: nat, uid: nat): set<nat>
    requires n <= |es|
  {
    set k | 0 <= k < n && FailsOn(start, es, k, uid)
  }

  lemma OneMoreFailure(start: System, es: seq<Event>, n: nat, uid: nat)
    requires n < |es|
    ensures FailuresOn(start, es, n + 1, uid) == if FailsOn(start, es, n, uid) then FailuresOn(start, es, n, uid) + {n} else FailuresOn(start, es, n, uid)
    ensures n !in FailuresOn(start, es, n, uid)
  {
    hide FailsOn;
  }

  lemma StepFailures(s: System, e: Event, uid: nat)
    requires !e.Renumber?
    ensures Failures(Step(s, e).history, uid) ==
      Failures(s.history, uid) + if e.FailSource? && s.phase.Working? && s.phase.queue != [] && s.phase.queue[0] == uid then 1 else 0
  {
    hide ImapFailureBackoffMs, EligibleImapUids, Answers, BuildImapSearchCriteria;
  }

  /** The history counts the deterministic failures of a message: one for each event that is one. */
  lemma {:induction false} FailuresAreCounted(m: Mailbox, es: seq<Event>, n: nat, uid: nat)
    requires n <= |es| && NoRenumber(es[..n])
    ensures Failures(Run(Start(m), es[..n]).history, uid) == |FailuresOn(Start(m), es, n, uid)|
    decreases n
  {
    if n == 0 {
      assert es[..0] == [];
      assert FailuresOn(Start(m), es, 0, uid) == {};
    } else {
      hide Run, Step, FailuresOn;
      assert es[n - 1] in es[..n];
      forall e | e in es[..n - 1] ensures !e.Renumber? { assert e in es[..n]; }
      FailuresAreCounted(m, es, n - 1, uid);
      OneStep(Start(m), es, n - 1);
      OneMoreFailure(Start(m), es, n - 1, uid);
      StepFailures(Run(Start(m), es[..n - 1]), es[n - 1], uid);
    }
  }

  /** The counter of a message is given up only when the message is dealt with, another one fails, or the mailbox is renumbered. */
  lemma CounterStays(s: System, e: Event)
    requires Invariant(s) && s.connector.failedUid.Some?
    ensures var c, d := s.connector, Step(s, e).connector;
      || (d.failedUid == c.failedUid && d.failedValidity == c.failedValidity && d.failedAttempts == c.failedAttempts)
      || (e.FailSource? && s.phase.Working? && s.phase.queue != [] && d.failedUid == Some(s.phase.queue[0]))
      || ((e.Commit? || e.Quarantine?) && QueueOf(s.phase) != [] && c.failedUid == Some(QueueOf(s.phase)[0])
          && d.failedUid == None && d.failedAttempts == 0 && d.failedValidity == None)
      || (e.Open? && !Current(s))
  {
    hide ImapFailureBackoffMs, EligibleImapUids, Answers, BuildImapSearchCriteria, Passed, Accounted, QueueOk;
  }

  /** A message that is dealt with has no counter left. */
  lemma CounterIsCleared(s: System, e: Event)
    requires (e.Commit? && s.phase.Committing? && s.phase.queue != []) || (e.Quarantine? && s.phase.Quarantining? && s.phase.queue != [])
    ensures Step(s, e).connector.failedUid != Some(s.phase.queue[0])
  {}
}
