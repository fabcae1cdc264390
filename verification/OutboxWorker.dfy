/**
 The outbox store updated in place, and the worker that sends from it.

 The worker is the only one sending; what it does is a continuation of a run of the outbox.
 */
module OutboxWorker {
  import opened Wrappers
  import O = Outbox

  class OutboxStore {
    var messages: seq<O.Message>

    constructor ()
      ensures messages == []
    {
      messages := [];
    }

    method FindByKey(user: string, key: Option<string>) returns (existing: Option<nat>)
      ensures existing == O.FindKey(messages, user, key)
    {
      existing := None;
      FindNone(user, key);
      if key.None? {
        FindNoKey(messages, user);
        return;
      }
      for i := 0 to |messages|
        invariant existing == O.FindKey(messages[..i], user, key)
      {
        hide O.FindKey;
        FindOneMore(messages, i, user, key);
        if existing.None? && messages[i].user == user && messages[i].key == key {
          existing := Some(i);
        }
      }
      assert messages[..|messages|] == messages;
    }

    method QueueOutboundMessage(user: string, raw: Option<string>, status: O.Status, body: string, approval: O.Approval)
      modifies this
      ensures messages == O.QueueOutboundMessage(old(messages), user, raw, status, body, approval)
    {
      hide O.FindKey, O.DedupeKey;
      var key := O.DedupeKey(raw);
      var existing := FindByKey(user, key);
      if existing.Some? {
        var m := messages[existing.value];
        if !m.status.Failed? || m.attempts >= O.MAX_DELIVERY_ATTEMPTS {
          return;
        }
        messages := messages[existing.value := m.(status := O.Pending, body := body, failed := false, nextAttemptAt := None)];
        return;
      }
      messages := messages + [O.Message(user, key, status, 0, None, false, body, approval)];
    }

    method UpdateOutboundMessageStatus(id: nat, status: O.Status, failed: bool, nextAttemptAt: Option<int>)
      requires id < |messages|
      modifies this
      ensures messages == O.UpdateStatus(old(messages), id, status, failed, nextAttemptAt)
    {
      messages := messages[id := messages[id].(status := status, failed := failed, nextAttemptAt := nextAttemptAt)];
    }

    method ClaimOutboundMessageForSending(id: nat) returns (claimed: Option<O.Message>)
      requires id < |messages|
      modifies this
      ensures claimed.Some? <==> O.Claimable(old(messages[id]))
      ensures messages == if claimed.Some? then O.Claim(old(messages), id) else old(messages)
      ensures claimed.Some? ==> claimed.value == messages[id]
    {
      var message := messages[id];
      if !message.status.Pending? && !message.status.Approved? {
        return None;
      }
      var updated := message.(status := O.Sending, failed := false, nextAttemptAt := None, attempts := message.attempts + 1);
      messages := messages[id := updated];
      claimed := Some(updated);
    }

    /** The user's messages that may be sent and are due, oldest first, up to the limit. */
    method ListDue(user: string, now: int, limit: nat) returns (due: seq<nat>)
      ensures FirstDue(messages, user, now, limit, due)
    {
      due := [];
      for i := 0 to |messages|
        invariant |due| <= limit
        invariant forall k :: 0 <= k < |due| ==> due[k] < i
        invariant forall k, j :: 0 <= k < j < |due| ==> due[k] < due[j]
        invariant forall k :: 0 <= k < |due| ==> IsDue(messages[due[k]], user, now)
        invariant |due| < limit ==> forall id: nat :: id < i && IsDue(messages[id], user, now) ==> id in due
        invariant forall id: nat, k: nat :: id < i && IsDue(messages[id], user, now) && id !in due && k in due ==> k < id
      {
        if |due| < limit && IsDue(messages[i], user, now) {
          due := due + [i];
        }
      }
    }
  }

  /** The first due messages: ascending, and a due message is left out only when the limit is used up on earlier ones. */
  ghost predicate FirstDue(messages: seq<O.Message>, user: string, now: int, limit: nat, due: seq<nat>) {
    && |due| <= limit
    && (forall i, j :: 0 <= i < j < |due| ==> due[i] < due[j])
    && (forall k :: 0 <= k < |due| ==> due[k] < |messages| && IsDue(messages[due[k]], user, now))
    && (|due| < limit ==> forall id: nat :: id < |messages| && IsDue(messages[id], user, now) ==> id in due)
    && (forall id: nat, k: nat :: id < |messages| && IsDue(messages[id], user, now) && id !in due && k in due ==> k < id)
  }

  lemma FindNone(user: string, key: Option<string>)
    ensures O.FindKey([], user, key) == None
  {}

  lemma FindNoKey(messages: seq<O.Message>, user: string)
    ensures O.FindKey(messages, user, None) == None
  {}

  lemma FindOneMore(messages: seq<O.Message>, i: nat, user: string, key: Option<string>)
    requires i < |messages| && key.Some?
    ensures O.FindKey(messages[..i + 1], user, key) ==
      if O.FindKey(messages[..i], user, key).Some? then O.FindKey(messages[..i], user, key)
      else if messages[i].user == user && messages[i].key == key then Some(i)
      else None
  {
    assert messages[..i + 1][..i] == messages[..i];
  }

  predicate IsDue(m: O.Message, user: string, now: int) {
    m.user == user && O.Claimable(m) && (m.nextAttemptAt.None? || m.nextAttemptAt.value <= now)
  }

  /** The user's, pending or approved, and with no retry time still to come. */
  predicate MayGo(m: O.Message, user: string, now: int) {
    m.user == user && (m.status == O.Pending || m.status == O.Approved) && !(m.nextAttemptAt.Some? && m.nextAttemptAt.value > now)
  }

  // Unclaimed: the message could not be claimed any more.
  datatype Result = Crashed | Unclaimed | Finished(message: O.Message)

  /**
   One message, as it was listed: written off, or left alone if it was not to be sent, or claimed and
   handed to the provider. It may have changed since it was listed.
   */
  method SendOutboundMessage(store: OutboxStore, id: nat, listed: O.Message, world: O.World, now: int) returns (result: Result)
    requires id < |store.messages|
    modifies store
    ensures store.messages == O.Send(old(store.messages), id, listed.status, world, now)
    ensures result.Crashed? <==> O.Claims(old(store.messages[id]), listed.status, world) && world.crash
    ensures result.Unclaimed? <==> world.HandedOver? && O.MaySend(listed.status) && !O.Claimable(old(store.messages[id]))
    ensures result.Finished? ==>
      result.message == if O.MaySend(listed.status) || world.Disabled? then store.messages[id] else listed
  {
    if world.Disabled? {
      store.UpdateOutboundMessageStatus(id, O.Failed, true, None);
      return Finished(store.messages[id]);
    }
    if !listed.status.Pending? && !listed.status.Approved? {
      return Finished(listed);
    }
    if world.TurnedDown? {
      store.UpdateOutboundMessageStatus(id, O.Failed, true, None);
      return Finished(store.messages[id]);
    }
    var claimed := store.ClaimOutboundMessageForSending(id);
    if claimed.None? {
      return Unclaimed;
    }
    if world.crash {
      return Crashed;
    }
    if !world.throws {
      store.UpdateOutboundMessageStatus(id, O.Sent, false, None);
    } else if O.IsDailyCheckIn(claimed.value) && claimed.value.attempts < O.MAX_DELIVERY_ATTEMPTS {
      store.UpdateOutboundMessageStatus(id, O.Pending, true, Some(O.DailyCheckInRetryAt(claimed.value.attempts, now)));
    } else {
      store.UpdateOutboundMessageStatus(id, O.Failed, true, None);
    }
    result := Finished(store.messages[id]);
  }

  /** The events of a batch: one attempt for each message as it was listed, in order. */
  function Attempts(listed: seq<O.Message>, ids: seq<nat>, world: nat -> O.World, now: int): (r: seq<O.Event>)
    requires forall k :: 0 <= k < |ids| ==> ids[k] < |listed|
    ensures |r| == |ids|
  {
    if ids == [] then []
    else
      var id := ids[|ids| - 1];
      Attempts(listed, ids[..|ids| - 1], world, now) + [O.Attempt(id, listed[id].status, world(id), now)]
  }

  /** An attempt leaves every other message as it is. */
  lemma AttemptTouchesOne(s: O.System, id: nat, listed: O.Status, world: O.World, now: int)
    requires |s.records| == |s.messages| && id < |s.messages|
    ensures var t := O.Step(s, O.Attempt(id, listed, world, now));
      && t.messages == O.Send(s.messages, id, listed, world, now) && |t.messages| == |s.messages| && |t.records| == |t.messages|
      && forall k :: 0 <= k < |s.messages| && k != id ==> t.messages[k] == s.messages[k]
  {
    hide O.DailyCheckInRetryAt, O.IsDailyCheckIn;
  }

  lemma OneMoreAttempt(s: O.System, listed: seq<O.Message>, ids: seq<nat>, n: nat, world: nat -> O.World, now: int)
    requires n < |ids| && forall k :: 0 <= k < |ids| ==> ids[k] < |listed|
    ensures O.Run(s, Attempts(listed, ids[..n + 1], world, now))
      == O.Step(O.Run(s, Attempts(listed, ids[..n], world, now)), O.Attempt(ids[n], listed[ids[n]].status, world(ids[n]), now))
  {
    hide O.Step, O.Run;
    assert ids[..n + 1][..n] == ids[..n];
    O.RunMore(s, Attempts(listed, ids[..n], world, now), O.Attempt(ids[n], listed[ids[n]].status, world(ids[n]), now));
  }

  function CountSent(messages: seq<O.Message>, ids: seq<nat>): nat
    requires forall k :: 0 <= k < |ids| ==> ids[k] < |messages|
  {
    if ids == [] then 0
    else CountSent(messages, ids[..|ids| - 1]) + if messages[ids[|ids| - 1]].status.Sent? then 1 else 0
  }

  lemma {:induction false} SameSent(before: seq<O.Message>, after: seq<O.Message>, ids: seq<nat>)
    requires forall k :: 0 <= k < |ids| ==> ids[k] < |before| && ids[k] < |after| && after[ids[k]] == before[ids[k]]
    ensures CountSent(after, ids) == CountSent(before, ids)
  {
    if ids != [] { SameSent(before, after, ids[..|ids| - 1]); }
  }

  lemma OneMoreSent(before: seq<O.Message>, after: seq<O.Message>, due: seq<nat>, n: nat)
    requires n < |due| && |before| == |after|
    requires forall k :: 0 <= k <= n ==> due[k] < |before|
    requires forall k :: 0 <= k < n ==> after[due[k]] == before[due[k]]
    ensures CountSent(after, due[..n + 1]) == CountSent(before, due[..n]) + if after[due[n]].status.Sent? then 1 else 0
  {
    assert due[..n + 1][..n] == due[..n];
    SameSent(before, after, due[..n]);
  }

  /**
   A pass over the queue: the due messages up to the limit are listed, and each is attempted once, in
   order, unless the worker dies at one of them; `sent` counts those that are sent now.
   */
  method ProcessOutboundQueue(store: OutboxStore, user: string, limit: nat, world: nat -> O.World, now: int, ghost s: O.System)
    returns (attempted: nat, sent: nat, failed: nat, ghost due: seq<nat>, ghost ids: seq<nat>, ghost died: bool)
    requires s.messages == store.messages && |s.records| == |s.messages|
    modifies store
    ensures FirstDue(s.messages, user, now, limit, due) && attempted == |due|
    ensures ids <= due && |store.messages| == |s.messages|
    ensures O.Run(s, Attempts(s.messages, ids, world, now)).messages == store.messages
    ensures forall id: nat :: id < |s.messages| && id in due ==> MayGo(s.messages[id], user, now)
    ensures |due| < limit ==> forall id: nat :: id < |s.messages| && MayGo(s.messages[id], user, now) ==> id in due
    ensures forall id: nat :: id < |s.messages| && id !in ids ==> store.messages[id] == s.messages[id]
    ensures !died ==> ids == due && sent == CountSent(store.messages, due) && sent + failed == attempted
    ensures died ==> ids != [] && world(ids[|ids| - 1]).HandedOver? && world(ids[|ids| - 1]).crash
  {
    hide O.Step, O.Run, Attempts, O.Send, CountSent;
    var listed := store.messages;
    var list := store.ListDue(user, now, limit);
    attempted, sent, failed, due, ids, died := |list|, 0, 0, list, [], false;
    NothingYet(s, listed, world, now);
    assert list[..0] == [];
    for n := 0 to |list|
      invariant ids == list[..n] && sent + failed == n && |store.messages| == |listed|
      invariant var t := O.Run(s, Attempts(listed, ids, world, now)); t.messages == store.messages && |t.records| == |t.messages|
      invariant sent == CountSent(store.messages, list[..n])
      invariant forall k :: n <= k < |list| ==> store.messages[list[k]] == listed[list[k]]
      invariant forall id: nat :: id < |listed| && id !in list[..n] ==> store.messages[id] == listed[id]
    {
      var id := list[n];
      ghost var before := store.messages;
      AttemptTouchesOne(O.Run(s, Attempts(listed, ids, world, now)), id, listed[id].status, world(id), now);
      OneMoreAttempt(s, listed, list, n, world, now);
      var updated := SendOutboundMessage(store, id, listed[id], world(id), now);
      ids := list[..n + 1];
      if updated.Crashed? {
        died := true;
        return;
      }
      SendEnds(before, id, world(id), now);
      OneMoreSent(before, store.messages, list, n);
      if updated.Finished? && updated.message.status.Sent? {
        sent := sent + 1;
      } else if updated.Finished? && (updated.message.status.Failed? || (updated.message.status.Pending? && updated.message.failed)) {
        failed := failed + 1;
      }
    }
    assert list[..|list|] == list;
  }

  lemma NothingYet(s: O.System, listed: seq<O.Message>, world: nat -> O.World, now: int)
    ensures O.Run(s, Attempts(listed, [], world, now)) == s && CountSent(s.messages, []) == 0
  {}

  lemma SendEnds(messages: seq<O.Message>, id: nat, world: O.World, now: int)
    requires id < |messages| && O.Claimable(messages[id]) && !(world.HandedOver? && world.crash)
    ensures var m := O.Send(messages, id, messages[id].status, world, now)[id];
      m.status.Sent? || m.status.Failed? || (m.status.Pending? && m.failed)
  {
    hide O.DailyCheckInRetryAt, O.IsDailyCheckIn;
  }
}
