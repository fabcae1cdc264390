/** The IMAP cursor protocol: what each step of a poll does, with the mailbox changing in between. */
module ImapProtocol {
  import opened Wrappers

  const IMAP_UID_QUARANTINE_ATTEMPTS: nat := 3
  const MAX_IMAP_FAILURE_BACKOFF_MS: nat := 3_600_000
  const MIN_BACKOFF_MS: nat := 60_000

  // ----- pure helpers -----

  function Min(a: nat, b: nat): nat {
    if a <= b then a else b
  }

  function Power2(n: nat): (r: nat)
    ensures r >= 1
  {
    if n == 0 then 1 else 2 * Power2(n - 1)
  }

  function ImapFailureBackoffMs(consecutiveFailures: nat, pollIntervalMs: nat): nat {
    var failures := if consecutiveFailures < 1 then 1 else consecutiveFailures;
    var base := if pollIntervalMs < MIN_BACKOFF_MS then MIN_BACKOFF_MS else pollIntervalMs;
    Min(MAX_IMAP_FAILURE_BACKOFF_MS, base * Power2(Min(10, failures - 1)))
  }

  predicate Increasing(s: seq<nat>) {
    forall i, j :: 0 <= i < j < |s| ==> s[i] < s[j]
  }

  function Insert(s: seq<nat>, u: nat): seq<nat> {
    if s == [] || u < s[0] then [u] + s
    else if u == s[0] then s
    else [s[0]] + Insert(s[1..], u)
  }

  function SortAbove(uids: seq<nat>, cursor: nat): seq<nat> {
    if uids == [] then []
    else if uids[0] > cursor then Insert(SortAbove(uids[1..], cursor), uids[0])
    else SortAbove(uids[1..], cursor)
  }

  /** The smallest `limit` distinct UIDs above the cursor, in ascending order. */
  function EligibleImapUids(uids: seq<nat>, lastUid: Option<nat>, limit: nat): seq<nat> {
    var sorted := SortAbove(uids, CursorOf(lastUid));
    sorted[..Min(limit, |sorted|)]
  }

  function CursorOf(lastUid: Option<nat>): nat {
    if lastUid.Some? then lastUid.value else 0
  }

  // ----- the connector row -----

  datatype Connector = Connector(
    uidValidity: Option<nat>, lastUid: Option<nat>, lastReceivedAt: Option<int>,
    failedUid: Option<nat>, failedAttempts: nat, failedValidity: Option<nat>,
    consecutiveFailures: nat, nextPollAt: Option<int>)

  const NEW_CONNECTOR := Connector(None, None, None, None, 0, None, 0, None)

  /** A changed UIDVALIDITY clears the cursor and the failure counter. */
  function Synchronize(c: Connector, validity: nat): Connector {
    if c.uidValidity == Some(validity) then c
    else if c.uidValidity.Some? then
      c.(uidValidity := Some(validity), lastUid := None, lastReceivedAt := None, failedUid := None, failedAttempts := 0, failedValidity := None)
    else c.(uidValidity := Some(validity))
  }

  function Newer(receivedAt: Option<int>, last: Option<int>): Option<int> {
    if receivedAt.Some? && (last.None? || receivedAt.value > last.value) then receivedAt else last
  }

  /** The cursor moves to `uid`, never back; the failure counter is cleared if it was for `uid`. */
  function Progress(c: Connector, receivedAt: Option<int>, uid: nat): Connector {
    var moved := c.(
      lastReceivedAt := Newer(receivedAt, c.lastReceivedAt),
      lastUid := Some(if uid >= CursorOf(c.lastUid) then uid else CursorOf(c.lastUid)));
    if c.failedUid == Some(uid) then moved.(failedUid := None, failedAttempts := 0, failedValidity := None) else moved
  }

  function Seeded(c: Connector, latest: Option<int>): Connector {
    if c.lastReceivedAt.None? && CursorOf(c.lastUid) == 0 && latest.Some? then c.(lastReceivedAt := latest) else c
  }

  /** Deterministic failures counted against `uid` so far. */
  function PriorAttempts(c: Connector, uid: nat, validity: nat): nat {
    if c.failedUid == Some(uid) && (c.failedValidity.None? || c.failedValidity == Some(validity)) then c.failedAttempts else 0
  }

  function CountFailure(c: Connector, uid: nat, validity: nat): Connector {
    c.(failedUid := Some(uid), failedAttempts := Min(IMAP_UID_QUARANTINE_ATTEMPTS, PriorAttempts(c, uid, validity) + 1), failedValidity := Some(validity))
  }

  function PollState(c: Connector, succeeded: bool, pollIntervalMs: nat, now: int): Connector {
    var failures := if succeeded then 0 else c.consecutiveFailures + 1;
    c.(consecutiveFailures := failures,
       nextPollAt := Some(now + if succeeded then pollIntervalMs else ImapFailureBackoffMs(failures, pollIntervalMs)))
  }

  datatype Criteria = FromUid(first: nat) | Since(date: int) | Unseen

  function BuildImapSearchCriteria(c: Connector): Criteria {
    if CursorOf(c.lastUid) > 0 then FromUid(CursorOf(c.lastUid) + 1)
    else if c.lastReceivedAt.Some? then Since(c.lastReceivedAt.value)
    else Unseen
  }

  // ----- the system -----

  // UIDs start at 1; `next` is above every UID given out so far (section 2.3.1.1 of RFC 3501).
  datatype Mailbox = Mailbox(validity: nat, present: set<nat>, next: nat)

  datatype Phase =
    | Idle
    | Opened
    | Working(queue: seq<nat>, failed: bool)
    | Committing(queue: seq<nat>, failed: bool)
    | Quarantining(queue: seq<nat>)
    | Closing

  // What happened since the mailbox got its present UIDVALIDITY.
  datatype History = History(
    known: set<nat>, ingested: set<nat>, committed: set<nat>, quarantined: set<nat>, failures: map<nat, nat>,
    unlisted: set<nat>, bootstrap: bool, skipped: set<nat>, base: nat)

  datatype System = System(mailbox: Mailbox, connector: Connector, phase: Phase, history: History)

  datatype Event =
    | Arrive(uid: nat)
    | Expunge(uid: nat)
    | Renumber(validity: nat, uids: set<nat>, next: nat)
    | Seed(latest: Option<int>)
    | Open
    | Search(found: seq<nat>, limit: nat)
    | Ingest
    | Commit(receivedAt: Option<int>)
    | FailTransient
    | FailSource
    | Quarantine
    | Close(interval: nat, now: int)
    | Abort(interval: nat, time: int)
    | Crash

  function FreshHistory(present: set<nat>): History {
    History(present, {}, {}, {}, map[], {}, false, {}, 0)
  }

  function Start(mailbox: Mailbox): System {
    System(mailbox, NEW_CONNECTOR, Idle, FreshHistory(mailbox.present))
  }

  function Failures(h: History, uid: nat): nat {
    if uid in h.failures then h.failures[uid] else 0
  }

  /** The server returns UIDs of the mailbox; a search from a UID returns all from there on. */
  predicate Answers(m: Mailbox, criteria: Criteria, found: seq<nat>) {
    && (forall u <- found :: u in m.present)
    && (criteria.FromUid? ==> forall u <- m.present :: u >= criteria.first ==> u in found)
  }

  function DoArrive(s: System, uid: nat): System {
    if uid < s.mailbox.next then s
    else s.(mailbox := s.mailbox.(present := s.mailbox.present + {uid}, next := uid + 1), history := s.history.(known := s.history.known + {uid}))
  }

  /** A mailbox is renumbered between polls only, under a larger UIDVALIDITY. */
  function DoRenumber(s: System, validity: nat, uids: set<nat>, next: nat): System {
    if s.phase.Idle? && validity > s.mailbox.validity && next >= 1 && (forall u <- uids :: 1 <= u < next) then
      s.(mailbox := Mailbox(validity, uids, next), history := FreshHistory(uids))
    else s
  }

  function DoOpen(s: System): System {
    if s.phase.Idle? then s.(connector := Synchronize(s.connector, s.mailbox.validity), phase := Opened) else s
  }

  function DoSearch(s: System, found: seq<nat>, limit: nat): System {
    if s.phase.Opened? && Answers(s.mailbox, BuildImapSearchCriteria(s.connector), found) then
      var bootstrap := !BuildImapSearchCriteria(s.connector).FromUid?;
      s.(phase := Working(EligibleImapUids(found, s.connector.lastUid, limit), false),
         history := s.history.(bootstrap := bootstrap,
           unlisted := if bootstrap then set u | u in s.mailbox.present && u !in found else {}))
    else s
  }

  function DoIngest(s: System): System {
    if s.phase.Working? && s.phase.queue != [] then
      s.(phase := Committing(s.phase.queue, s.phase.failed), history := s.history.(ingested := s.history.ingested + {s.phase.queue[0]}))
    else s
  }

  /** Passing `uid` also passes what a search without a cursor did not list below it. */
  function Passed(h: History, uid: nat): History {
    h.(skipped := h.skipped + (set u | u in h.unlisted && u < uid), base := if h.bootstrap then uid else h.base)
  }

  function DoCommit(s: System, receivedAt: Option<int>): System {
    if s.phase.Committing? && s.phase.queue != [] then
      var uid := s.phase.queue[0];
      s.(connector := Progress(s.connector, receivedAt, uid), phase := Working(s.phase.queue[1..], s.phase.failed),
         history := Passed(s.history.(committed := s.history.committed + {uid}), uid))
    else s
  }

  function DoFailTransient(s: System): System {
    if (s.phase.Working? || s.phase.Committing?) && s.phase.queue != [] then s.(phase := Closing) else s
  }

  function DoFailSource(s: System): System {
    if s.phase.Working? && s.phase.queue != [] then
      var uid := s.phase.queue[0];
      var counted := CountFailure(s.connector, uid, s.mailbox.validity);
      s.(connector := counted,
         phase := if counted.failedAttempts < IMAP_UID_QUARANTINE_ATTEMPTS then Closing else Quarantining(s.phase.queue),
         history := s.history.(failures := s.history.failures[uid := Failures(s.history, uid) + 1]))
    else s
  }

  function DoQuarantine(s: System): System {
    if s.phase.Quarantining? && s.phase.queue != [] then
      var uid := s.phase.queue[0];
      s.(connector := Progress(s.connector, None, uid), phase := Working(s.phase.queue[1..], true),
         history := Passed(s.history.(quarantined := s.history.quarantined + {uid}), uid))
    else s
  }

  function DoClose(s: System, interval: nat, now: int): System {
    if s.phase.Closing? then s.(connector := PollState(s.connector, false, interval, now), phase := Idle)
    else if s.phase.Working? && s.phase.queue == [] then s.(connector := PollState(s.connector, !s.phase.failed, interval, now), phase := Idle)
    else s
  }

  function Step(s: System, e: Event): System {
    match e
    case Arrive(uid) => DoArrive(s, uid)
    case Expunge(uid) => s.(mailbox := s.mailbox.(present := s.mailbox.present - {uid}))
    case Renumber(validity, uids, next) => DoRenumber(s, validity, uids, next)
    case Seed(latest) => if s.phase.Idle? then s.(connector := Seeded(s.connector, latest)) else s
    case Open => DoOpen(s)
    case Search(found, limit) => DoSearch(s, found, limit)
    case Ingest => DoIngest(s)
    case Commit(receivedAt) => DoCommit(s, receivedAt)
    case FailTransient => DoFailTransient(s)
    case FailSource => DoFailSource(s)
    case Quarantine => DoQuarantine(s)
    case Close(interval, now) => DoClose(s, interval, now)
    case Abort(interval, time) => s.(connector := PollState(s.connector, false, interval, time), phase := Idle)
    case Crash => s.(phase := Idle)
  }

  function Run(start: System, es: seq<Event>): System
    decreases |es|, 1
  {
    if es == [] then start else AfterLast(start, es)
  }

  function AfterLast(start: System, es: seq<Event>): System
    requires es != []
    decreases |es|, 0
  {
    Step(Run(start, es[..|es| - 1]), es[|es| - 1])
  }
}
