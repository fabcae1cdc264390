/**
 The poller as it is written: the connector row updated in place, and the loops of one poll.

 Each method performs a continuation of a run of the protocol; the ghost events say which.
 */
module ImapPoller {
  import opened Wrappers
  import opened ImapProtocol
  import opened ImapTheorems

  datatype Resolution = Continue | Stop

  /** How the handling of one message goes; `ingested` says whether it had been stored by then. */
  datatype Outcome = Handled(receivedAt: Option<int>) | SourceError | OtherError(ingested: bool)

  class ConnectorRow {
    var connector: Connector

    constructor ()
      ensures connector == NEW_CONNECTOR
    {
      connector := NEW_CONNECTOR;
    }

    method SynchronizeImapUidValidity(mailboxUidValidity: nat)
      modifies this
      ensures connector == Synchronize(old(connector), mailboxUidValidity)
    {
      var resetCursor := connector.uidValidity.Some? && connector.uidValidity.value != mailboxUidValidity;
      if !resetCursor && connector.uidValidity == Some(mailboxUidValidity) {
        return;
      }
      connector := connector.(uidValidity := Some(mailboxUidValidity));
      if resetCursor {
        connector := connector.(lastUid := None, lastReceivedAt := None);
        connector := connector.(failedUid := None, failedAttempts := 0, failedValidity := None);
      }
    }

    method UpdateImapProgress(receivedAt: Option<int>, uid: nat)
      modifies this
      ensures connector == Progress(old(connector), receivedAt, uid)
    {
      var currentUid := connector.lastUid;
      var clearFailure := connector.failedUid == Some(uid);
      connector := connector.(lastReceivedAt := Newer(receivedAt, connector.lastReceivedAt));
      var floor := if currentUid.Some? then currentUid.value else 0;
      connector := connector.(lastUid := Some(if uid >= floor then uid else floor));
      if clearFailure {
        connector := connector.(failedUid := None, failedAttempts := 0, failedValidity := None);
      }
    }

    method SeedImapProgress(latest: Option<int>)
      modifies this
      ensures connector == Seeded(old(connector), latest)
    {
      if connector.lastReceivedAt.Some? || (connector.lastUid.Some? && connector.lastUid.value != 0) || latest.None? {
        return;
      }
      connector := connector.(lastReceivedAt := latest);
    }

    method UpdateImapPollState(succeeded: bool, pollIntervalMs: nat, now: int)
      modifies this
      ensures connector == PollState(old(connector), succeeded, pollIntervalMs, now)
    {
      var consecutiveFailures := if succeeded then 0 else connector.consecutiveFailures + 1;
      var delayMs := if succeeded then pollIntervalMs else ImapFailureBackoffMs(consecutiveFailures, pollIntervalMs);
      connector := connector.(consecutiveFailures := consecutiveFailures, nextPollAt := Some(now + delayMs));
    }

    method ClearImapUidFailureState(uid: nat, uidValidity: nat)
      modifies this
      ensures old(connector).failedUid != Some(uid) ==> connector == old(connector)
      ensures connector.failedUid != Some(uid) || connector.failedValidity != Some(uidValidity)
    {
      if connector.failedUid != Some(uid) || (connector.failedValidity.Some? && connector.failedValidity != Some(uidValidity)) {
        return;
      }
      connector := connector.(failedUid := None, failedAttempts := 0, failedValidity := None);
    }

    /** Counts a deterministic failure, and at the third one moves the cursor past the message. */
    method ResolveImapUidFailure(uid: nat, uidValidity: nat, deterministic: bool) returns (resolution: Resolution)
      modifies this
      ensures !deterministic ==> resolution == Stop && connector == old(connector)
      ensures deterministic ==>
        var counted := CountFailure(old(connector), uid, uidValidity);
        && resolution == (if counted.failedAttempts < IMAP_UID_QUARANTINE_ATTEMPTS then Stop else Continue)
        && connector == (if counted.failedAttempts < IMAP_UID_QUARANTINE_ATTEMPTS then counted else Progress(counted, None, uid))
    {
      if !deterministic {
        return Stop;
      }
      var sameUid := connector.failedUid == Some(uid) && (connector.failedValidity.None? || connector.failedValidity == Some(uidValidity));
      var priorAttempts := if sameUid then connector.failedAttempts else 0;
      var attempts := Min(IMAP_UID_QUARANTINE_ATTEMPTS, priorAttempts + 1);
      connector := connector.(failedUid := Some(uid), failedAttempts := attempts, failedValidity := Some(uidValidity));
      if attempts < IMAP_UID_QUARANTINE_ATTEMPTS {
        return Stop;
      }
      UpdateImapProgress(None, uid);
      ClearImapUidFailureState(uid, uidValidity);
      resolution := Continue;
    }
  }

  // ----- one batch -----

  function InsertUid(sorted: seq<nat>, uid: nat): seq<nat> {
    if sorted == [] || uid <= sorted[0] then [uid] + sorted else [sorted[0]] + InsertUid(sorted[1..], uid)
  }

  function SortUids(messages: seq<nat>): seq<nat> {
    if messages == [] then [] else InsertUid(SortUids(messages[1..]), messages[0])
  }

  predicate OutcomeEvents(outs: seq<Event>) {
    forall i :: 0 <= i < |outs| ==> IsOutcome(outs[i]) || outs[i].FailTransient?
  }

  predicate NoTransient(outs: seq<Event>) {
    forall i :: 0 <= i < |outs| ==> IsOutcome(outs[i])
  }

  lemma HandledRuns(s: System, queue: seq<nat>, failed: bool, receivedAt: Option<int>)
    requires s.phase == Working(queue, failed) && queue != []
    ensures var t := Step(Step(s, Ingest), Commit(receivedAt));
      t.connector == Progress(s.connector, receivedAt, queue[0]) && t.phase == Working(queue[1..], failed) && t.mailbox == s.mailbox
  {}

  lemma TransientRuns(s: System, queue: seq<nat>, failed: bool, ingested: bool)
    requires s.phase == Working(queue, failed) && queue != []
    ensures var t := Step(if ingested then Step(s, Ingest) else s, FailTransient);
      t.connector == s.connector && t.phase == Closing && t.mailbox == s.mailbox
  {}

  lemma SourceErrorRuns(s: System, queue: seq<nat>, failed: bool)
    requires s.phase == Working(queue, failed) && queue != []
    ensures var counted, t := CountFailure(s.connector, queue[0], s.mailbox.validity), Step(s, FailSource);
      && t.connector == counted && t.mailbox == s.mailbox
      && (counted.failedAttempts < IMAP_UID_QUARANTINE_ATTEMPTS ==> t.phase == Closing)
      && (counted.failedAttempts >= IMAP_UID_QUARANTINE_ATTEMPTS ==>
            && Step(t, Quarantine).connector == Progress(counted, None, queue[0])
            && Step(t, Quarantine).phase == Working(queue[1..], true) && Step(t, Quarantine).mailbox == s.mailbox)
  {}

  lemma RunTwo(s: System, outs: seq<Event>, a: Event, b: Event)
    ensures Run(s, outs + [a]) == Step(Run(s, outs), a) && Run(s, outs + [a, b]) == Step(Step(Run(s, outs), a), b)
  {
    hide Step, Run;
    OneStep(s, outs, a);
    OneStep(s, outs + [a], b);
    assert outs + [a] + [b] == outs + [a, b];
  }

  /** One message: handle and commit it, or resolve its failure. */
  method ProcessMessage(row: ConnectorRow, message: nat, outcome: Outcome, uidValidity: nat, ghost s: System, ghost queue: seq<nat>, ghost failed: bool)
    returns (recorded: bool, resolution: Resolution, ghost outs: seq<Event>)
    requires s.connector == row.connector && s.phase == Working(queue, failed) && queue != [] && queue[0] == message && s.mailbox.validity == uidValidity
    modifies row
    ensures OutcomeEvents(outs) && (!outcome.OtherError? ==> NoTransient(outs))
    ensures Run(s, outs).connector == row.connector && Run(s, outs).mailbox == s.mailbox
    ensures recorded == outcome.Handled? && (recorded ==> resolution == Continue)
    ensures Run(s, outs).phase == if resolution == Stop then Closing else Working(queue[1..], failed || !recorded)
  {
    hide Run, Step, Progress, CountFailure;
    NoEvents(s);
    match outcome
    case Handled(receivedAt) =>
      row.UpdateImapProgress(receivedAt, message);
      HandledRuns(s, queue, failed, receivedAt);
      RunTwo(s, [], Ingest, Commit(receivedAt));
      recorded, resolution, outs := true, Continue, [] + [Ingest, Commit(receivedAt)];
    case SourceError =>
      SourceErrorRuns(s, queue, failed);
      RunTwo(s, [], FailSource, Quarantine);
      resolution := row.ResolveImapUidFailure(message, uidValidity, true);
      recorded, outs := false, if resolution == Stop then [] + [FailSource] else [] + [FailSource, Quarantine];
    case OtherError(ingested) =>
      TransientRuns(s, queue, failed, ingested);
      RunTwo(s, [], FailTransient, Crash);
      RunTwo(s, [], Ingest, FailTransient);
      resolution := row.ResolveImapUidFailure(message, uidValidity, false);
      recorded, outs := false, if ingested then [] + [Ingest, FailTransient] else [] + [FailTransient];
  }

  lemma NoEvents(s: System)
    ensures Run(s, []) == s
  {}

  lemma EventsConcat(a: seq<Event>, b: seq<Event>)
    requires OutcomeEvents(a) && OutcomeEvents(b)
    ensures OutcomeEvents(a + b) && (NoTransient(a) && NoTransient(b) ==> NoTransient(a + b))
  {}

  ghost predicate NoOtherError(outcome: nat -> Outcome) {
    forall uid :: !outcome(uid).OtherError?
  }

  /** Messages in ascending order, up to the first failure that stops the batch. */
  method ProcessImapUidBatch(row: ConnectorRow, messages: seq<nat>, outcome: nat -> Outcome, uidValidity: nat, ghost s: System, ghost rest: seq<nat>)
    returns (attempted: nat, recorded: nat, failed: nat, stopped: bool, ghost outs: seq<Event>)
    requires s.connector == row.connector && s.mailbox.validity == uidValidity
    requires s.phase.Working? && s.phase.queue == SortUids(messages) + rest
    modifies row
    ensures OutcomeEvents(outs) && (NoOtherError(outcome) ==> NoTransient(outs))
    ensures Run(s, outs).connector == row.connector && Run(s, outs).mailbox == s.mailbox
    ensures attempted == recorded + failed <= |SortUids(messages)| && (stopped ==> failed > 0) && (!stopped ==> attempted == |SortUids(messages)|)
    ensures Run(s, outs).phase == if stopped then Closing else Working(rest, s.phase.failed || failed > 0)
  {
    hide Run, Step, SortUids, OutcomeEvents, NoTransient;
    NoEvents(s);
    EmptyEvents();
    var sorted := SortUids(messages);
    attempted, recorded, failed, stopped, outs := 0, 0, 0, false, [];
    assert sorted[0..] == sorted;
    for i := 0 to |sorted|
      invariant attempted == i == recorded + failed && !stopped
      invariant OutcomeEvents(outs) && (NoOtherError(outcome) ==> NoTransient(outs))
      invariant Run(s, outs).connector == row.connector && Run(s, outs).mailbox == s.mailbox
      invariant Run(s, outs).phase == Working(sorted[i..] + rest, s.phase.failed || failed > 0)
    {
      attempted := attempted + 1;
      ghost var queue := sorted[i..] + rest;
      assert queue[0] == sorted[i] && queue[1..] == sorted[i + 1..] + rest;
      var done, resolution;
      ghost var more;
      done, resolution, more := ProcessMessage(row, sorted[i], outcome(sorted[i]), uidValidity, Run(s, outs), queue, s.phase.failed || failed > 0);
      RunConcat(s, outs, more);
      EventsConcat(outs, more);
      outs := outs + more;
      if done {
        recorded := recorded + 1;
      } else {
        failed := failed + 1;
        if resolution == Stop {
          return attempted, recorded, failed, true, outs;
        }
      }
    }
    assert sorted[|sorted|..] + rest == rest;
  }

  lemma EmptyEvents()
    ensures OutcomeEvents([]) && NoTransient([])
  {}

  lemma SingleMessage(uid: nat)
    ensures SortUids([uid]) == [uid]
  {
    assert [uid][1..] == [];
  }

  // ----- one poll -----

  lemma PollOpens(s: System, latest: Option<int>, found: seq<nat>, limit: nat)
    requires s.phase.Idle?
    requires Answers(s.mailbox, BuildImapSearchCriteria(Synchronize(Seeded(s.connector, latest), s.mailbox.validity)), found)
    ensures var c := Synchronize(Seeded(s.connector, latest), s.mailbox.validity);
      var t := Run(s, [Seed(latest), Open, Search(found, limit)]);
      t.connector == c && t.mailbox == s.mailbox && t.phase == Working(EligibleImapUids(found, c.lastUid, limit), false)
  {
    hide Answers, EligibleImapUids, BuildImapSearchCriteria, Synchronize, Seeded, Run;
    OneStep(s, [], Seed(latest));
    NoEvents(s);
    OneStep(s, [] + [Seed(latest)], Open);
    OneStep(s, [] + [Seed(latest)] + [Open], Search(found, limit));
    assert [] + [Seed(latest)] + [Open] + [Search(found, limit)] == [Seed(latest), Open, Search(found, limit)];
  }

  lemma PollCloses(s: System, interval: nat, now: int)
    requires s.phase.Closing? || (s.phase.Working? && s.phase.queue == [])
    ensures var t := Step(s, Close(interval, now));
      t.phase.Idle? && t.mailbox == s.mailbox && t.connector == PollState(s.connector, s.phase.Working? && !s.phase.failed, interval, now)
  {
    hide PollState;
  }

  /** A poll over an open mailbox: the events it performs, in the order the protocol has them. */
  method ProcessImapInbox(row: ConnectorRow, mailboxUidValidity: nat, latest: Option<int>, found: seq<nat>, limit: nat,
    outcome: nat -> Outcome, pollIntervalMs: nat, now: int, ghost s: System)
    returns (attempted: nat, recorded: nat, failed: nat, ghost outs: seq<Event>)
    requires s.connector == row.connector && s.mailbox.validity == mailboxUidValidity && s.phase.Idle?
    requires Answers(s.mailbox, BuildImapSearchCriteria(Synchronize(Seeded(s.connector, latest), mailboxUidValidity)), found)
    modifies row
    ensures OutcomeEvents(outs) && (NoOtherError(outcome) ==> NoTransient(outs))
    ensures var t := Run(s, [Seed(latest), Open, Search(found, limit)] + outs + [Close(pollIntervalMs, now)]);
      t.connector == row.connector && t.phase.Idle?
    ensures attempted == recorded + failed <= limit
    ensures row.connector.consecutiveFailures == if failed == 0 then 0 else s.connector.consecutiveFailures + 1
  {
    hide Run, Step, EligibleImapUids, Answers, OutcomeEvents, NoTransient, SortUids;
    row.SeedImapProgress(latest);
    row.SynchronizeImapUidValidity(mailboxUidValidity);
    PollOpens(s, latest, found, limit);
    ghost var ready := Run(s, [Seed(latest), Open, Search(found, limit)]);
    var candidateUids := EligibleImapUids(found, row.connector.lastUid, limit);
    EligibleAreSmallest(found, row.connector.lastUid, limit);
    attempted, recorded, failed, outs := 0, 0, 0, [];
    NoEvents(ready);
    EmptyEvents();
    var stopped := false;
    var i := 0;
    assert candidateUids[0..] == candidateUids;
    while i < |candidateUids|
      invariant 0 <= i <= |candidateUids| && attempted == recorded + failed == i
      invariant OutcomeEvents(outs) && (NoOtherError(outcome) ==> NoTransient(outs))
      invariant Run(ready, outs).connector == row.connector && Run(ready, outs).mailbox == s.mailbox
      invariant Run(ready, outs).phase == if stopped then Closing else Working(candidateUids[i..], failed > 0)
      invariant stopped ==> failed > 0
      invariant row.connector.consecutiveFailures == s.connector.consecutiveFailures
      decreases |candidateUids| - i, !stopped
    {
      SingleMessage(candidateUids[i]);
      assert candidateUids[i..] == [candidateUids[i]] + candidateUids[i + 1..];
      var a, r, f, halted;
      ghost var more;
      a, r, f, halted, more := ProcessImapUidBatch(row, [candidateUids[i]], outcome, mailboxUidValidity, Run(ready, outs), candidateUids[i + 1..]);
      RunConcat(ready, outs, more);
      EventsConcat(outs, more);
      OutcomesKeepCount(Run(ready, outs), more);
      outs := outs + more;
      attempted, recorded, failed := attempted + a, recorded + r, failed + f;
      i := i + 1;
      if f > 0 && halted {
        stopped := true;
        break;
      }
    }
    ghost var before := Run(ready, outs);
    PollCloses(before, pollIntervalMs, now);
    row.UpdateImapPollState(failed == 0, pollIntervalMs, now);
    OneStep(ready, outs, Close(pollIntervalMs, now));
    RunConcat(s, [Seed(latest), Open, Search(found, limit)], outs + [Close(pollIntervalMs, now)]);
    assert [Seed(latest), Open, Search(found, limit)] + (outs + [Close(pollIntervalMs, now)])
        == [Seed(latest), Open, Search(found, limit)] + outs + [Close(pollIntervalMs, now)];
  }

  lemma {:induction false} OutcomesKeepCount(s: System, outs: seq<Event>)
    requires OutcomeEvents(outs)
    ensures Run(s, outs).connector.consecutiveFailures == s.connector.consecutiveFailures
  {
    if outs != [] {
      OutcomesKeepCount(s, outs[..|outs| - 1]);
      var last := outs[|outs| - 1];
      assert IsOutcome(last) || last.FailTransient?;
    }
  }
}
