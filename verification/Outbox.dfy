/** The outbox: queueing with a dedupe key, claiming, sending, retrying, and recovery of stuck sends. */
module Outbox {
  import opened Wrappers
  import opened Lines
  import Utf16

  const MAX_DELIVERY_ATTEMPTS: nat := 5
  const DAILY_CHECK_IN_RETRY_BASE_MS: nat := 60_000
  const DAILY_CHECK_IN_PREFIX := "daily-check-in:"

  datatype Status = Pending | RequiresApproval | Approved | Sending | Sent | Failed | Cancelled

  // Whether a message has an approval, and whether it still waits for its decision.
  datatype Approval = NoApproval | Waiting | Decided

  datatype Message = Message(
    user: string, key: Option<string>, status: Status, attempts: nat, nextAttemptAt: Option<int>, failed: bool, body: string,
    approval: Approval)

  // What was done for a message: claims, deliveries by the provider, and deliveries that were never recorded as sent.
  datatype Record = Record(claims: nat, deliveries: nat, unrecorded: nat)

  // A message's id is its position.
  datatype System = System(messages: seq<Message>, records: seq<Record>)

  const START := System([], [])

  predicate Space(c: char) {
    Utf16.IsSpaceCode(c as int)
  }

  function DedupeKey(raw: Option<string>): Option<string> {
    if raw.Some? && Trim(raw.value, Space) != [] then Some(Trim(raw.value, Space)) else None
  }

  function FindKey(messages: seq<Message>, user: string, key: Option<string>): (r: Option<nat>)
    ensures r.Some? ==> r.value < |messages| && key.Some? && messages[r.value].user == user && messages[r.value].key == key
    ensures r.None? && key.Some? ==> forall i :: 0 <= i < |messages| ==> !(messages[i].user == user && messages[i].key == key)
    ensures r.Some? ==> forall i :: 0 <= i < r.value ==> !(messages[i].user == user && messages[i].key == key)
    decreases |messages|
  {
    if messages == [] || key.None? then None
    else
      var r := FindKey(messages[..|messages| - 1], user, key);
      if r.Some? then r
      else if messages[|messages| - 1].user == user && messages[|messages| - 1].key == key then Some(|messages| - 1)
      else None
  }

  // ----- the operations -----

  /** What a caller may queue a message as. */
  predicate IsQueued(status: Status) {
    status.Pending? || status.RequiresApproval? || status.Approved?
  }

  /** A failed message with attempts left is queued again under its key; any other one with that key is left alone. */
  function QueueOutboundMessage(messages: seq<Message>, user: string, raw: Option<string>, status: Status, body: string, approval: Approval): (r: seq<Message>)
    ensures |messages| <= |r| <= |messages| + 1
  {
    var key := DedupeKey(raw);
    var found := FindKey(messages, user, key);
    if found.None? then messages + [Message(user, key, status, 0, None, false, body, approval)]
    else
      var m := messages[found.value];
      if !m.status.Failed? || m.attempts >= MAX_DELIVERY_ATTEMPTS then messages
      else messages[found.value := m.(status := Pending, body := body, failed := false, nextAttemptAt := None)]
  }

  function UpdateStatus(messages: seq<Message>, id: nat, status: Status, failed: bool, nextAttemptAt: Option<int>): (r: seq<Message>)
    requires id < |messages|
    ensures |r| == |messages|
  {
    messages[id := messages[id].(status := status, failed := failed, nextAttemptAt := nextAttemptAt)]
  }

  predicate MaySend(status: Status) {
    status.Pending? || status.Approved?
  }

  predicate Claimable(m: Message) {
    MaySend(m.status)
  }

  function Claim(messages: seq<Message>, id: nat): (r: seq<Message>)
    requires id < |messages|
    ensures |r| == |messages|
  {
    messages[id := messages[id].(status := Sending, failed := false, nextAttemptAt := None, attempts := messages[id].attempts + 1)]
  }

  predicate IsDailyCheckIn(m: Message) {
    m.key.Some? && DAILY_CHECK_IN_PREFIX <= m.key.value
  }

  function Power2(n: nat): nat {
    if n == 0 then 1 else 2 * Power2(n - 1)
  }

  function DailyCheckInRetryAt(attempts: nat, now: int): int {
    now + DAILY_CHECK_IN_RETRY_BASE_MS * Power2(if attempts >= 1 then attempts - 1 else 0)
  }

  function AfterFailure(messages: seq<Message>, id: nat, now: int): (r: seq<Message>)
    requires id < |messages|
    ensures |r| == |messages|
  {
    var m := messages[id];
    if IsDailyCheckIn(m) && m.attempts < MAX_DELIVERY_ATTEMPTS then
      UpdateStatus(messages, id, Pending, true, Some(DailyCheckInRetryAt(m.attempts, now)))
    else UpdateStatus(messages, id, Failed, true, None)
  }

  /** How one attempt goes: delivery is off, the message is turned down before the claim, or it is handed to the provider. */
  datatype World = Disabled | TurnedDown | HandedOver(delivered: bool, throws: bool, crash: bool)

  /** Writing a message off looks only at the status it was listed with, and not at that when delivery is off. */
  predicate WritesOff(listed: Status, world: World) {
    world.Disabled? || (world.TurnedDown? && MaySend(listed))
  }

  predicate Claims(m: Message, listed: Status, world: World) {
    world.HandedOver? && MaySend(listed) && Claimable(m)
  }

  /** One attempt, with the status the message had when it was listed. */
  function Send(messages: seq<Message>, id: nat, listed: Status, world: World, now: int): (r: seq<Message>)
    requires id < |messages|
    ensures |r| == |messages|
  {
    if WritesOff(listed, world) then UpdateStatus(messages, id, Failed, true, None)
    else if !Claims(messages[id], listed, world) then messages
    else
      var claimed := Claim(messages, id);
      if world.crash then claimed
      else if world.throws then AfterFailure(claimed, id, now)
      else UpdateStatus(claimed, id, Sent, false, None)
  }

  function Noted(r: Record, m: Message, listed: Status, world: World): Record {
    if !Claims(m, listed, world) then r
    else
      var sent := !world.throws && !world.crash;
      Record(r.claims + 1, r.deliveries + (if world.delivered || sent then 1 else 0), r.unrecorded + (if world.delivered && !sent then 1 else 0))
  }

  /** A send that has been under way too long: a daily check-in is tried again, anything else has failed. */
  function Recover(messages: seq<Message>, id: nat): (r: seq<Message>)
    requires id < |messages|
    ensures |r| == |messages|
  {
    var m := messages[id];
    UpdateStatus(messages, id, if IsDailyCheckIn(m) && m.attempts < MAX_DELIVERY_ATTEMPTS then Pending else Failed, true, None)
  }

  predicate IsLocked(m: Message) {
    m.status.Sending? || m.status.Sent? || m.status.Failed? || m.status.Cancelled?
  }

  /** A decision on a waiting approval rewrites the message, whatever its status; expiring or editing it rejects it. */
  function DecideApproval(messages: seq<Message>, id: nat, approve: bool): (r: seq<Message>)
    requires id < |messages|
    ensures |r| == |messages|
  {
    if !messages[id].approval.Waiting? then messages
    else
      messages[id := messages[id].(
        status := if approve then Approved else Cancelled, failed := false, nextAttemptAt := None, approval := Decided)]
  }

  /** The owner's change of a status: refused on a locked message, a decision if there is an approval to decide. */
  function PatchStatus(messages: seq<Message>, id: nat, status: Status): (r: seq<Message>)
    requires id < |messages|
    ensures |r| == |messages|
  {
    if !(status.Pending? || status.Approved? || status.Cancelled?) || IsLocked(messages[id]) then messages
    else if !messages[id].approval.NoApproval? && !status.Pending? then DecideApproval(messages, id, status.Approved?)
    else UpdateStatus(messages, id, status, false, None)
  }

  // ----- runs -----

  datatype Event =
    | Queue(user: string, key: Option<string>, status: Status, body: string, approval: Approval)
    | Attempt(id: nat, listed: Status, world: World, now: int)
    | Decide(id: nat, approve: bool)
    | Patch(id: nat, status: Status)
    | RecoverStale(stale: nat)

  function Step(s: System, e: Event): System {
    match e
    case Queue(user, key, status, body, approval) =>
      if !IsQueued(status) then s
      else
        var messages := QueueOutboundMessage(s.messages, user, key, status, body, approval);
        System(messages, if |messages| > |s.messages| then s.records + [Record(0, 0, 0)] else s.records)
    case Attempt(id, listed, world, now) =>
      if id < |s.messages| && id < |s.records| then
        System(Send(s.messages, id, listed, world, now), s.records[id := Noted(s.records[id], s.messages[id], listed, world)])
      else s
    case Decide(id, approve) =>
      if id < |s.messages| then s.(messages := DecideApproval(s.messages, id, approve)) else s
    case Patch(id, status) =>
      if id < |s.messages| then s.(messages := PatchStatus(s.messages, id, status)) else s
    case RecoverStale(id) =>
      if id < |s.messages| && s.messages[id].status.Sending? then s.(messages := Recover(s.messages, id)) else s
  }

  function Run(s: System, es: seq<Event>): System
    decreases |es|, 1
  {
    if es == [] then s else AfterLast(s, es)
  }

  function AfterLast(s: System, es: seq<Event>): System
    requires es != []
    decreases |es|, 0
  {
    Step(Run(s, es[..|es| - 1]), es[|es| - 1])
  }

  lemma RunMore(s: System, es: seq<Event>, e: Event)
    ensures Run(s, es + [e]) == Step(Run(s, es), e)
    ensures Run(s, []) == s
  {
    hide Step;
    assert (es + [e])[..|es + [e]| - 1] == es;
    assert Run(s, es + [e]) == AfterLast(s, es + [e]);
  }

  // ----- what harmless events keep -----

  function Bound(m: Message): nat {
    if m.key.Some? then MAX_DELIVERY_ATTEMPTS else 1
  }

  predicate MessageOk(m: Message, r: Record) {
    && r.claims == m.attempts
    && m.attempts <= Bound(m)
    && (!IsLocked(m) ==> m.attempts < Bound(m))
    && r.deliveries == r.unrecorded + (if m.status.Sent? then 1 else 0)
    && r.deliveries <= r.claims
  }

  predicate KeysUnique(messages: seq<Message>) {
    forall i, j :: 0 <= i < j < |messages| && messages[i].key.Some? ==> !(messages[i].user == messages[j].user && messages[i].key == messages[j].key)
  }

  predicate Invariant(s: System) {
    && |s.messages| == |s.records| && KeysUnique(s.messages)
    && forall i :: 0 <= i < |s.messages| ==> MessageOk(s.messages[i], s.records[i])
  }

  /**
   A decision does no harm unless it lands on a sent message, or approves one that has no attempt left;
   writing off does none unless it lands on a sent message.
   */
  predicate Harmless(s: System, e: Event) {
    match e
    case Decide(id, approve) =>
      id < |s.messages| && s.messages[id].approval.Waiting? ==>
        !s.messages[id].status.Sent? && (approve ==> s.messages[id].attempts < Bound(s.messages[id]))
    case Attempt(id, listed, world, now) =>
      id < |s.messages| && WritesOff(listed, world) ==> !s.messages[id].status.Sent?
    case _ => true
  }

  lemma OneChanged(s: System, t: System, id: nat)
    requires Invariant(s) && id < |s.messages| && |t.messages| == |s.messages| && |t.records| == |s.records|
    requires t.messages == s.messages[id := t.messages[id]] && t.records == s.records[id := t.records[id]]
    requires t.messages[id].user == s.messages[id].user && t.messages[id].key == s.messages[id].key
    requires MessageOk(t.messages[id], t.records[id])
    ensures Invariant(t)
  {
    hide MessageOk;
    forall i | 0 <= i < |t.messages| ensures MessageOk(t.messages[i], t.records[i]) {
      if i != id { assert t.messages[i] == s.messages[i] && t.records[i] == s.records[i]; }
    }
    assert forall i :: 0 <= i < |t.messages| ==> t.messages[i].key == s.messages[i].key && t.messages[i].user == s.messages[i].user;
  }

  lemma QueueKeeps(s: System, e: Event)
    requires Invariant(s) && e.Queue?
    ensures Invariant(Step(s, e))
  {
    hide DedupeKey;
    var found := FindKey(s.messages, e.user, DedupeKey(e.key));
    if found.Some? {
      assert MessageOk(s.messages[found.value], s.records[found.value]);
      OneChanged(s, Step(s, e), found.value);
    }
  }

  lemma AttemptKeeps(s: System, e: Event)
    requires Invariant(s) && e.Attempt? && Harmless(s, e)
    ensures Invariant(Step(s, e))
  {
    hide DailyCheckInRetryAt;
    if e.id < |s.messages| {
      assert MessageOk(s.messages[e.id], s.records[e.id]);
      OneChanged(s, Step(s, e), e.id);
    }
  }

  lemma DecideKeeps(s: System, e: Event)
    requires Invariant(s) && e.Decide? && Harmless(s, e)
    ensures Invariant(Step(s, e))
  {
    if e.id < |s.messages| {
      var m, t := s.messages[e.id], Step(s, e);
      assert MessageOk(m, s.records[e.id]);
      assert Bound(t.messages[e.id]) == Bound(m);
      OneChanged(s, t, e.id);
    }
  }

  lemma PatchKeeps(s: System, e: Event)
    requires Invariant(s) && e.Patch?
    ensures Invariant(Step(s, e))
  {
    if e.id < |s.messages| {
      var m, t := s.messages[e.id], Step(s, e);
      assert MessageOk(m, s.records[e.id]);
      assert Bound(t.messages[e.id]) == Bound(m);
      OneChanged(s, t, e.id);
    }
  }

  lemma RecoverKeeps(s: System, e: Event)
    requires Invariant(s) && e.RecoverStale?
    ensures Invariant(Step(s, e))
  {
    if e.stale < |s.messages| {
      assert MessageOk(s.messages[e.stale], s.records[e.stale]);
      OneChanged(s, Step(s, e), e.stale);
    }
  }

  lemma StepKeeps(s: System, e: Event)
    requires Invariant(s) && Harmless(s, e)
    ensures Invariant(Step(s, e))
  {
    hide Invariant, Step, Harmless;
    match e
    case Queue(_, _, _, _, _) => QueueKeeps(s, e);
    case Attempt(_, _, _, _) => AttemptKeeps(s, e);
    case RecoverStale(_) => RecoverKeeps(s, e);
    case Decide(_, _) => DecideKeeps(s, e);
    case Patch(_, _) => PatchKeeps(s, e);
  }

  // ----- exactly the harmless events keep the promise -----

  /** Sent messages and their records are as they were. */
  predicate SentUntouched(s: System, t: System) {
    && |s.messages| <= |t.messages| && |s.records| <= |t.records| && |s.records| == |s.messages|
    && forall i :: 0 <= i < |s.messages| && s.messages[i].status.Sent? ==> t.messages[i] == s.messages[i] && t.records[i] == s.records[i]
  }

  predicate WithinBounds(messages: seq<Message>) {
    forall i :: 0 <= i < |messages| ==> messages[i].attempts <= Bound(messages[i])
  }

  /** The worker's next attempt at a message, delivered without a failure. */
  function NextAttempt(id: nat): Event {
    Attempt(id, Pending, HandedOver(true, false, false), 0)
  }

  /** What an event may not break: sent is final, and no attempt, the next one included, is one too many. */
  ghost predicate KeepsPromise(s: System, e: Event) {
    && SentUntouched(s, Step(s, e))
    && forall id: nat :: WithinBounds(Step(Step(s, e), NextAttempt(id)).messages)
  }

  lemma SentStays(s: System, e: Event)
    requires |s.messages| == |s.records| && Harmless(s, e)
    ensures SentUntouched(s, Step(s, e))
  {
    hide DedupeKey, DailyCheckInRetryAt, IsDailyCheckIn, Bound;
  }

  lemma InvariantBounds(s: System)
    requires Invariant(s)
    ensures WithinBounds(s.messages)
  {
    hide Bound;
    assert forall i :: 0 <= i < |s.messages| ==> MessageOk(s.messages[i], s.records[i]);
  }

  lemma HarmlessKeeps(s: System, e: Event)
    requires Invariant(s) && Harmless(s, e)
    ensures KeepsPromise(s, e)
  {
    SentStays(s, e);
    StepKeeps(s, e);
    hide Invariant, Step, SentUntouched, WithinBounds;
    forall id: nat ensures WithinBounds(Step(Step(s, e), NextAttempt(id)).messages) {
      StepKeeps(Step(s, e), NextAttempt(id));
      InvariantBounds(Step(Step(s, e), NextAttempt(id)));
    }
  }

  lemma HarmBreaks(s: System, e: Event)
    requires Invariant(s) && !Harmless(s, e)
    ensures !KeepsPromise(s, e)
  {
    hide DailyCheckInRetryAt, IsDailyCheckIn, DedupeKey;
    var t, m := Step(s, e), s.messages[e.id];
    assert MessageOk(m, s.records[e.id]);
    if m.status.Sent? {
      assert t.messages[e.id].status != Sent;
    } else {
      var after := Step(t, NextAttempt(e.id)).messages[e.id];
      assert after.attempts == m.attempts + 1 && Bound(after) == Bound(m);
      assert !WithinBounds(Step(t, NextAttempt(e.id)).messages);
    }
  }

  predicate AllHarmless(s: System, es: seq<Event>) {
    forall k :: 0 <= k < |es| ==> Harmless(Run(s, es[..k]), es[k])
  }

  lemma {:induction false} RunKeeps(s: System, es: seq<Event>)
    requires Invariant(s) && AllHarmless(s, es)
    ensures Invariant(Run(s, es))
    decreases |es|
  {
    hide Invariant, Step, Harmless;
    if es == [] {
      RunMore(s, [], Decide(0, false));
    } else {
      var front, last := es[..|es| - 1], es[|es| - 1];
      FewerHarmless(s, es, |es| - 1);
      RunKeeps(s, front);
      StepKeeps(Run(s, front), last);
      assert front + [last] == es;
      RunMore(s, front, last);
    }
  }

  lemma FewerHarmless(s: System, es: seq<Event>, n: nat)
    requires AllHarmless(s, es) && n <= |es|
    ensures AllHarmless(s, es[..n])
  {
    hide Harmless, Run;
    forall k | 0 <= k < n ensures Harmless(Run(s, es[..n][..k]), es[..n][k]) {
      assert es[..n][..k] == es[..k];
    }
  }

  /** A history keeps the promise at every event if and only if every event of it is harmless. */
  lemma ExactlyTheHarmless(s: System, es: seq<Event>)
    requires Invariant(s)
    ensures AllHarmless(s, es) <==> forall k :: 0 <= k < |es| ==> KeepsPromise(Run(s, es[..k]), es[k])
  {
    hide Invariant, Run, Harmless, KeepsPromise;
    if AllHarmless(s, es) {
      forall k | 0 <= k < |es| ensures KeepsPromise(Run(s, es[..k]), es[k]) {
        FewerHarmless(s, es, k);
        RunKeeps(s, es[..k]);
        HarmlessKeeps(Run(s, es[..k]), es[k]);
      }
    } else {
      assert es[..|es|] == es;
      var k := FirstHarm(s, es, |es|);
      RunKeeps(s, es[..k]);
      HarmBreaks(Run(s, es[..k]), es[k]);
    }
  }

  lemma OneMoreHarmless(s: System, es: seq<Event>, n: nat)
    requires n < |es|
    ensures AllHarmless(s, es[..n + 1]) <==> AllHarmless(s, es[..n]) && Harmless(Run(s, es[..n]), es[n])
    ensures AllHarmless(s, es[..0])
  {
    hide Run, Harmless;
    forall k | 0 <= k <= n ensures es[..n + 1][..k] == es[..k] && es[..n + 1][k] == es[k] && es[..n][..k] == es[..k] {}
    if AllHarmless(s, es[..n + 1]) {
      assert es[..n + 1][n] == es[n];
      forall k | 0 <= k < n ensures Harmless(Run(s, es[..n][..k]), es[..n][k]) { assert es[..n + 1][k] == es[..n][k]; }
    }
  }

  lemma {:induction false} FirstHarm(s: System, es: seq<Event>, n: nat) returns (k: nat)
    requires 0 < n <= |es| && !AllHarmless(s, es[..n])
    ensures k < |es| && AllHarmless(s, es[..k]) && !Harmless(Run(s, es[..k]), es[k])
    decreases n
  {
    hide Run, Harmless, AllHarmless;
    OneMoreHarmless(s, es, n - 1);
    k := n - 1;
    if !AllHarmless(s, es[..k]) { k := FirstHarm(s, es, k); }
  }

  /** The owner's own changes, and decisions on messages that are not locked, are harmless. */
  lemma UnlockedIsHarmless(s: System, id: nat, approve: bool, status: Status)
    requires Invariant(s)
    ensures id < |s.messages| && !IsLocked(s.messages[id]) ==> Harmless(s, Decide(id, approve))
    ensures Harmless(s, Patch(id, status))
  {
    if id < |s.messages| { assert MessageOk(s.messages[id], s.records[id]); }
  }

  /**
   Over every history of harmless events: one message per user and key; as many claims as attempts, at
   most five with a key and one without; and the provider delivered a message once for its being sent,
   and otherwise only in attempts that threw or crashed after the delivery.
   */
  lemma OutboxIsSafe(es: seq<Event>, i: nat, j: nat)
    requires AllHarmless(START, es)
    ensures var s := Run(START, es); i < |s.messages| && j < |s.messages| ==>
      && |s.records| == |s.messages| && s.records[i].claims == s.messages[i].attempts
      && s.messages[i].attempts <= (if s.messages[i].key.Some? then 5 else 1)
      && s.records[i].deliveries == s.records[i].unrecorded + (if s.messages[i].status.Sent? then 1 else 0)
      && (s.messages[i].key.Some? && s.messages[i].user == s.messages[j].user && s.messages[i].key == s.messages[j].key ==> i == j)
  {
    hide Run, AllHarmless;
    StartIsFine();
    RunKeeps(START, es);
    var s := Run(START, es);
    assert i < |s.messages| ==> MessageOk(s.messages[i], s.records[i]);
  }

  lemma StartIsFine()
    ensures Invariant(START)
  {}

  /** Sent is final: no harmless event ever changes the message or its record again. */
  lemma {:induction false} SentIsFinal(s: System, es: seq<Event>)
    requires Invariant(s) && AllHarmless(s, es)
    ensures SentUntouched(s, Run(s, es))
    decreases |es|
  {
    hide Invariant, Step, Harmless;
    if es == [] {
      RunMore(s, [], Decide(0, false));
      SentSame(s);
    } else {
      var front, last := es[..|es| - 1], es[|es| - 1];
      FewerHarmless(s, es, |es| - 1);
      SentIsFinal(s, front);
      RunKeeps(s, front);
      HarmlessKeeps(Run(s, front), last);
      assert front + [last] == es;
      RunMore(s, front, last);
    }
  }

  lemma SentSame(s: System)
    requires Invariant(s)
    ensures SentUntouched(s, s)
  {}

  // ----- a decision on a sent message -----

  /** A proposed message that the owner releases without deciding its approval, and the worker sends. */
  function SentUndecided(user: string, body: string): seq<Event> {
    [Queue(user, None, RequiresApproval, body, Waiting), Patch(0, Pending), NextAttempt(0)]
  }

  /** Approving it afterwards has it sent a second time, one attempt too many; an expiry cancels it. */
  lemma DecidedAfterSending(user: string, body: string)
    ensures var sent := Run(START, SentUndecided(user, body));
      && sent.messages == [Message(user, None, Sent, 1, None, false, body, Waiting)]
      && Step(Step(sent, Decide(0, true)), NextAttempt(0)).messages == [Message(user, None, Sent, 2, None, false, body, Decided)]
      && Step(Step(sent, Decide(0, true)), NextAttempt(0)).records == [Record(2, 2, 0)]
      && Step(sent, Decide(0, false)).messages == [Message(user, None, Cancelled, 1, None, false, body, Decided)]
  {
    var queue := Queue(user, None, RequiresApproval, body, Waiting);
    var m := Message(user, None, RequiresApproval, 0, None, false, body, Waiting);
    var s1, s2 := System([m], [Record(0, 0, 0)]), System([m.(status := Pending)], [Record(0, 0, 0)]);
    assert Step(START, queue) == s1;
    assert Step(s1, Patch(0, Pending)) == s2;
    hide Run;
    RunMore(START, [], queue);
    RunMore(START, [queue], Patch(0, Pending));
    RunMore(START, [queue, Patch(0, Pending)], NextAttempt(0));
    assert [] + [queue] == [queue];
    assert [queue] + [Patch(0, Pending)] == [queue, Patch(0, Pending)];
    assert [queue, Patch(0, Pending)] + [NextAttempt(0)] == SentUndecided(user, body);
    assert Step(s2, NextAttempt(0)) == System([m.(status := Sent, attempts := 1)], [Record(1, 1, 0)]);
  }
}
