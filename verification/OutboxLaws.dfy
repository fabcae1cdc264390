/** What a message goes through: as it is queued, while it waits for approval, and at each attempt. */
module OutboxLaws {
  import opened Wrappers
  import opened Lines
  import opened Outbox

  // ----- keys -----

  /** A key is what is left of the text when white space is cut off both ends; blank text is no key. */
  lemma KeyIsTrimmed(raw: string) returns (front: string, back: string)
    ensures |front| + |back| <= |raw| && front <= raw && raw[|raw| - |back|..] == back
    ensures (forall i :: 0 <= i < |front| ==> Space(front[i])) && (forall i :: 0 <= i < |back| ==> Space(back[i]))
    ensures var key := raw[|front|..|raw| - |back|];
      if key == "" then DedupeKey(Some(raw)) == None
      else DedupeKey(Some(raw)) == Some(key) && !Space(key[0]) && !Space(key[|key| - 1])
    ensures DedupeKey(None) == None
  {
    front, back := TrimCuts(raw, Space);
    hide Trim;
    var key := Trim(raw, Space);
    assert raw == front + (key + back);
    assert raw[|front|..|raw| - |back|] == key;
  }

  // ----- queueing -----

  predicate HasKey(messages: seq<Message>, i: nat, user: string, key: Option<string>)
    requires i < |messages|
  {
    messages[i].user == user && messages[i].key == key
  }

  /**
   A message with a new key, or none, is stored as it was queued, and may be sent at once exactly if it was
   queued as pending or approved; one with a known key takes the place of a failed message that has
   attempts left, and is dropped otherwise.
   */
  lemma QueueStores(s: System, user: string, raw: Option<string>, status: Status, body: string, approval: Approval)
    requires status == Pending || status == Approved || status == RequiresApproval
    ensures var t, key := Step(s, Queue(user, raw, status, body, approval)).messages, DedupeKey(raw);
      && (key == None || (forall i :: 0 <= i < |s.messages| ==> !HasKey(s.messages, i, user, key)) ==>
        && |t| == |s.messages| + 1 && t[..|s.messages|] == s.messages
        && t[|s.messages|] == Message(user, key, status, 0, None, false, body, approval)
        && (Claimable(t[|s.messages|]) <==> status == Pending || status == Approved))
      && (forall i :: key != None && 0 <= i < |s.messages| && HasKey(s.messages, i, user, key) && (forall j :: 0 <= j < i ==> !HasKey(s.messages, j, user, key)) ==>
        && |t| == |s.messages| && (forall j :: 0 <= j < |t| && j != i ==> t[j] == s.messages[j])
        && (if s.messages[i].status == Failed && s.messages[i].attempts < 5 then
              t[i] == Message(s.messages[i].user, s.messages[i].key, Pending, s.messages[i].attempts, None, false, body, s.messages[i].approval)
            else t[i] == s.messages[i]))
  {
    hide DedupeKey;
    var key, found := DedupeKey(raw), FindKey(s.messages, user, DedupeKey(raw));
    assert found.Some? ==> HasKey(s.messages, found.value, user, key);
    forall i | 0 <= i < |s.messages| && found.Some? && i < found.value ensures !HasKey(s.messages, i, user, key) {}
    forall i | 0 <= i < |s.messages| && found.None? && key.Some? ensures !HasKey(s.messages, i, user, key) {}
    hide FindKey;
  }

  // ----- nothing is sent before it is approved -----

  /** The event may let this message out: its approval, the owner's release, or another message under its key. */
  predicate Releases(e: Event, id: nat, user: string, key: Option<string>) {
    || e == Decide(id, true)
    || e == Patch(id, Pending) || e == Patch(id, Approved)
    || (e.Queue? && e.user == user && key.Some? && DedupeKey(e.key) == key)
  }

  /** Held back, and never claimed or delivered. */
  predicate Held(s: System, id: nat, user: string, key: Option<string>) {
    && id < |s.messages| == |s.records|
    && s.messages[id].user == user && s.messages[id].key == key
    && (s.messages[id].status == RequiresApproval || s.messages[id].status == Failed || s.messages[id].status == Cancelled)
    && s.records[id] == Record(0, 0, 0)
  }

  lemma HeldStays(s: System, e: Event, id: nat, user: string, key: Option<string>)
    requires Held(s, id, user, key) && !Releases(e, id, user, key)
    ensures Held(Step(s, e), id, user, key)
  {
    hide DedupeKey, DailyCheckInRetryAt, IsDailyCheckIn;
  }

  lemma {:induction false} RecordsMatch(es: seq<Event>)
    ensures |Run(START, es).messages| == |Run(START, es).records|
    decreases |es|
  {
    if es == [] {
      RunMore(START, [], RecoverStale(0));
    } else {
      var front, last := es[..|es| - 1], es[|es| - 1];
      RecordsMatch(front);
      assert front + [last] == es;
      RunMore(START, front, last);
      OneEachStep(Run(START, front), last);
    }
  }

  lemma OneEachStep(s: System, e: Event)
    requires |s.messages| == |s.records|
    ensures |Step(s, e).messages| == |Step(s, e).records|
  {
    hide DedupeKey, DailyCheckInRetryAt, IsDailyCheckIn, FindKey;
  }

  /** The event at `p` stores a new message that waits for approval. */
  ghost predicate Proposes(es: seq<Event>, p: nat) {
    && p < |es| && es[p].Queue? && es[p].status == RequiresApproval
    && var before := Run(START, es[..p]).messages;
      DedupeKey(es[p].key) == None || forall i :: 0 <= i < |before| ==> !HasKey(before, i, es[p].user, DedupeKey(es[p].key))
  }

  lemma ProposedIsHeld(es: seq<Event>, p: nat)
    ensures Proposes(es, p) ==> Held(Run(START, es[..p + 1]), |Run(START, es[..p]).messages|, es[p].user, DedupeKey(es[p].key))
  {
    if !Proposes(es, p) { return; }
    RecordsMatch(es[..p]);
    var s := Run(START, es[..p]);
    QueueStores(s, es[p].user, es[p].key, RequiresApproval, es[p].body, es[p].approval);
    assert es[..p] + [es[p]] == es[..p + 1];
    RunMore(START, es[..p], es[p]);
    hide Run, DedupeKey, FindKey;
  }

  lemma {:induction false} HeldUntilReleased(es: seq<Event>, p: nat, n: nat)
    requires p < n <= |es| && Proposes(es, p)
    ensures (forall k :: p < k < n ==> !Releases(es[k], |Run(START, es[..p]).messages|, es[p].user, DedupeKey(es[p].key))) ==>
      Held(Run(START, es[..n]), |Run(START, es[..p]).messages|, es[p].user, DedupeKey(es[p].key))
    decreases n
  {
    hide Run, DedupeKey, Held, Releases, Step;
    if exists k :: p < k < n && Releases(es[k], |Run(START, es[..p]).messages|, es[p].user, DedupeKey(es[p].key)) { return; }
    if n == p + 1 {
      ProposedIsHeld(es, p);
    } else {
      HeldUntilReleased(es, p, n - 1);
      assert es[..n - 1] + [es[n - 1]] == es[..n];
      RunMore(START, es[..n - 1], es[n - 1]);
      HeldStays(Run(START, es[..n - 1]), es[n - 1], |Run(START, es[..p]).messages|, es[p].user, DedupeKey(es[p].key));
    }
  }

  /**
   Over every history, harmless or not: a message queued for approval is claimed or delivered only after
   its approval, the owner's release, or another message under its key.
   */
  lemma NothingIsSentUnapproved(es: seq<Event>, p: nat)
    ensures Proposes(es, p) ==>
      var id := |Run(START, es[..p]).messages|;
      && id < |Run(START, es).records| == |Run(START, es).messages|
      && (Run(START, es).records[id].claims > 0 || Run(START, es).records[id].deliveries > 0 || Claimable(Run(START, es).messages[id]) ==>
        exists k :: p < k < |es| && Releases(es[k], id, es[p].user, DedupeKey(es[p].key)))
  {
    hide Run, DedupeKey, Releases;
    if !Proposes(es, p) { return; }
    var id := |Run(START, es[..p]).messages|;
    assert es[..|es|] == es;
    if forall k :: p < k < |es| ==> !Releases(es[k], id, es[p].user, DedupeKey(es[p].key)) {
      HeldUntilReleased(es, p, |es|);
    } else {
      ProposedIsHeld(es, p);
      NoneVanishes(es, p + 1, |es|);
      RecordsMatch(es);
    }
  }

  lemma {:induction false} NoneVanishes(es: seq<Event>, i: nat, n: nat)
    requires i <= n <= |es|
    ensures |Run(START, es[..i]).messages| <= |Run(START, es[..n]).messages|
    decreases n
  {
    hide Run;
    if i < n {
      NoneVanishes(es, i, n - 1);
      assert es[..n - 1] + [es[n - 1]] == es[..n];
      RunMore(START, es[..n - 1], es[n - 1]);
      hide DedupeKey, DailyCheckInRetryAt, IsDailyCheckIn, FindKey;
    }
  }

  // ----- attempts -----

  /** A daily check-in that is attempted for the `n`-th time and fails waits a minute, doubled each time. */
  function RetryWait(n: nat): int {
    if n <= 1 then 60_000 else if n == 2 then 120_000 else if n == 3 then 240_000 else 480_000
  }

  predicate IsDaily(m: Message) {
    m.key.Some? && "daily-check-in:" <= m.key.value
  }

  /** How one attempt ends, by how the world behaves. */
  lemma AttemptEnds(s: System, id: nat, listed: Status, world: World, now: int)
    requires id < |s.messages| == |s.records|
    ensures var t := Step(s, Attempt(id, listed, world, now)); var m, after, r := s.messages[id], t.messages[id], s.records[id];
      var sendable := (listed == Pending || listed == Approved) && (m.status == Pending || m.status == Approved);
      && |t.messages| == |s.messages| && (forall i :: 0 <= i < |s.messages| && i != id ==> t.messages[i] == s.messages[i] && t.records[i] == s.records[i])
      && after.user == m.user && after.key == m.key && after.body == m.body && after.approval == m.approval
      && (world.HandedOver? && sendable ==>
        && after.attempts == m.attempts + 1 && t.records[id].claims == r.claims + 1
        && (world.crash ==> after.status == Sending && !after.failed && after.nextAttemptAt == None)
        && (!world.crash && !world.throws ==> after.status == Sent && !after.failed && t.records[id].deliveries == r.deliveries + 1)
        && (!world.crash && world.throws ==> after.failed && if IsDaily(m) && m.attempts < 4
          then after.status == Pending && after.nextAttemptAt == Some(now + RetryWait(m.attempts + 1))
          else after.status == Failed && after.nextAttemptAt == None))
      && (world.HandedOver? && !sendable ==> after == m && t.records[id] == r)
      && (world.Disabled? || (world.TurnedDown? && (listed == Pending || listed == Approved)) ==> after.status == Failed && after.failed && t.records[id] == r)
      && (world.TurnedDown? && listed != Pending && listed != Approved ==> after == m && t.records[id] == r)
  {
    PowersOfTwo();
    hide Power2;
  }

  lemma PowersOfTwo()
    ensures Power2(0) == 1 && Power2(1) == 2 && Power2(2) == 4 && Power2(3) == 8
  {}

  // ----- decisions and recovery -----

  /** The same message up to its status, its failure mark and its next attempt. */
  predicate SameLetter(m: Message, t: Message) {
    t.user == m.user && t.key == m.key && t.body == m.body && t.attempts == m.attempts
  }

  /** A decision acts only on an approval that waits, and on the message at once, whatever became of it. */
  lemma DecisionActs(s: System, id: nat, approve: bool)
    requires id < |s.messages|
    ensures var m, t := s.messages[id], Step(s, Decide(id, approve));
      && (forall i :: 0 <= i < |s.messages| && i != id ==> t.messages[i] == s.messages[i]) && t.records == s.records
      && (m.approval != Waiting ==> t == s)
      && (m.approval == Waiting ==>
        && SameLetter(m, t.messages[id]) && t.messages[id].approval == Decided
        && t.messages[id].status == (if approve then Approved else Cancelled)
        && !t.messages[id].failed && t.messages[id].nextAttemptAt == None)
  {}

  /** The owner may release, approve or cancel a message that has not gone out; with an approval, the last two decide it. */
  lemma OwnerActs(s: System, id: nat, status: Status)
    requires id < |s.messages|
    ensures var m, t := s.messages[id], Step(s, Patch(id, status));
      var open := m.status == Pending || m.status == RequiresApproval || m.status == Approved;
      && (!open || !(status == Pending || status == Approved || status == Cancelled) ==> t == s)
      && (open && status == Pending ==> SameLetter(m, t.messages[id]) && t.messages[id].status == Pending && t.messages[id].approval == m.approval)
      && (open && (status == Approved || status == Cancelled) ==>
        if m.approval == NoApproval then SameLetter(m, t.messages[id]) && t.messages[id].status == status && t.messages[id].approval == NoApproval
        else t == Step(s, Decide(id, status == Approved)))
  {}

  /** Only a message stuck in sending is recovered: a daily check-in with attempts left is queued again, any other has failed. */
  lemma RecoveryActs(s: System, id: nat)
    requires id < |s.messages|
    ensures var m, t := s.messages[id], Step(s, RecoverStale(id));
      && (m.status != Sending ==> t == s)
      && (m.status == Sending ==>
        && SameLetter(m, t.messages[id]) && t.messages[id].failed && t.messages[id].approval == m.approval
        && t.messages[id].status == (if IsDaily(m) && m.attempts < 5 then Pending else Failed))
  {}

  /** An approval is decided once: what is decided, or was never asked for, stays so over every history. */
  lemma {:induction false} DecidedOnce(s: System, es: seq<Event>, id: nat)
    requires id < |s.messages| && s.messages[id].approval != Waiting
    ensures id < |Run(s, es).messages| && Run(s, es).messages[id].approval == s.messages[id].approval
    decreases |es|
  {
    hide Run;
    if es == [] {
      RunMore(s, [], RecoverStale(0));
    } else {
      var front, last := es[..|es| - 1], es[|es| - 1];
      DecidedOnce(s, front, id);
      assert front + [last] == es;
      RunMore(s, front, last);
      hide DedupeKey, DailyCheckInRetryAt, IsDailyCheckIn, FindKey;
    }
  }
}
