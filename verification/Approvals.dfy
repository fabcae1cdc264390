/** Approvals of cross-app writes: claimed for execution by compare and set. */
module Approvals {
  import opened Wrappers

  datatype Status = Pending | Approved | Rejected | Expired

  datatype ExecutionStatus = NotApplicable | Waiting | Running | Succeeded | Failed

  datatype Approval = Approval(user: string, crossAppWrite: bool, status: Status, execution: ExecutionStatus, result: Option<string>, decidedBy: Option<string>)

  // An approval's id is its position.
  type Store = seq<Approval>

  // ----- the operations -----

  predicate Owns(s: Store, user: string, id: nat) {
    id < |s| && s[id].user == user
  }

  /** Approving a cross-app write makes its execution available, the first time only. */
  function UpdateStatus(s: Store, user: string, id: nat, status: Status, decidedBy: Option<string>): Store {
    if !Owns(s, user, id) then s
    else
      var a := s[id];
      s[id := a.(
        status := status,
        execution := if status.Approved? && a.crossAppWrite && a.execution.NotApplicable? then Waiting else a.execution,
        decidedBy := if status.Pending? then a.decidedBy else decidedBy)]
  }

  predicate MayExecute(s: Store, user: string, id: nat, from: ExecutionStatus) {
    Owns(s, user, id) && s[id].status.Approved? && s[id].crossAppWrite && s[id].execution == from
  }

  function Claim(s: Store, user: string, id: nat): Store {
    if MayExecute(s, user, id, Waiting) then s[id := s[id].(execution := Running)] else s
  }

  function Complete(s: Store, user: string, id: nat, result: string): Store {
    if MayExecute(s, user, id, Running) then s[id := s[id].(execution := Succeeded, result := Some(result))] else s
  }

  function Fail(s: Store, user: string, id: nat, result: Option<string>): Store {
    if MayExecute(s, user, id, Running) then s[id := s[id].(execution := Failed, result := result)] else s
  }

  // ----- runs -----

  datatype Event =
    | Create(user: string, crossAppWrite: bool)
    | SetStatus(user: string, id: nat, status: Status, decidedBy: Option<string>)
    | ClaimExecution(user: string, id: nat)
    | CompleteExecution(user: string, id: nat, result: string)
    | FailExecution(user: string, id: nat, error: Option<string>)

  function Step(s: Store, e: Event): Store {
    match e
    case Create(user, crossAppWrite) => s + [Approval(user, crossAppWrite, Pending, NotApplicable, None, None)]
    case SetStatus(user, id, status, decidedBy) => UpdateStatus(s, user, id, status, decidedBy)
    case ClaimExecution(user, id) => Claim(s, user, id)
    case CompleteExecution(user, id, result) => Complete(s, user, id, result)
    case FailExecution(user, id, error) => Fail(s, user, id, error)
  }

  function Run(es: seq<Event>): Store {
    if es == [] then [] else Step(Run(es[..|es| - 1]), es[|es| - 1])
  }

  /** Whether this event is a claim of `id` that is granted. */
  predicate IsGranted(s: Store, e: Event, id: nat) {
    e.ClaimExecution? && e.id == id && MayExecute(s, e.user, id, Waiting)
  }

  /** Whether this event ends the execution of `id`. */
  predicate IsEnded(s: Store, e: Event, id: nat) {
    (e.CompleteExecution? || e.FailExecution?) && e.id == id && MayExecute(s, e.user, id, Running)
  }

  function Granted(es: seq<Event>, id: nat): nat {
    if es == [] then 0
    else Granted(es[..|es| - 1], id) + (if IsGranted(Run(es[..|es| - 1]), es[|es| - 1], id) then 1 else 0)
  }

  function Ended(es: seq<Event>, id: nat): nat {
    if es == [] then 0
    else Ended(es[..|es| - 1], id) + (if IsEnded(Run(es[..|es| - 1]), es[|es| - 1], id) then 1 else 0)
  }

  function Rank(e: ExecutionStatus): nat {
    match e
    case NotApplicable => 0
    case Waiting => 1
    case Running => 2
    case Succeeded => 3
    case Failed => 3
  }

  /**
   Over every history, with arbitrary status updates: a claim is granted at most once, an execution
   ends at most once and only after a granted claim, and the execution status tells which of these
   have happened.
   */
  lemma {:induction false} ClaimedAtMostOnce(es: seq<Event>, id: nat)
    ensures Granted(es, id) <= 1 && Ended(es, id) <= Granted(es, id)
    ensures id < |Run(es)| ==> (Granted(es, id) == 1 <==> Rank(Run(es)[id].execution) >= 2) && (Ended(es, id) == 1 <==> Rank(Run(es)[id].execution) == 3)
    ensures id >= |Run(es)| ==> Granted(es, id) == 0
  {
    if es != [] {
      ClaimedAtMostOnce(es[..|es| - 1], id);
    }
  }

  /** One step moves the execution status of an approval to the next stage or not at all, and only a cross-app write leaves the first one. */
  lemma ExecutionOnlyMovesForward(s: Store, e: Event, id: nat)
    requires id < |s|
    ensures var t := Step(s, e);
      && id < |t| && t[id].user == s[id].user && t[id].crossAppWrite == s[id].crossAppWrite
      && (t[id].execution == s[id].execution || Rank(t[id].execution) == Rank(s[id].execution) + 1)
      && (Rank(s[id].execution) == 3 ==> t[id].execution == s[id].execution && t[id].result == s[id].result)
      && (t[id].execution != s[id].execution ==> s[id].crossAppWrite && t[id].status.Approved?)
  {}

  /** Over a run: the stages never go back, and the outcome of an execution is never overwritten. */
  lemma {:induction false} ExecutionNeverGoesBack(es: seq<Event>, more: seq<Event>, id: nat)
    requires id < |Run(es)|
    ensures var s, t := Run(es), Run(es + more);
      && id < |t| && t[id].user == s[id].user && t[id].crossAppWrite == s[id].crossAppWrite
      && Rank(s[id].execution) <= Rank(t[id].execution) && (t[id].execution != s[id].execution ==> s[id].crossAppWrite)
      && (Rank(s[id].execution) == 3 ==> t[id].execution == s[id].execution && t[id].result == s[id].result)
  {
    var all := es + more;
    if more == [] {
      assert all == es;
    } else {
      var front := more[..|more| - 1];
      assert all[..|all| - 1] == es + front;
      ExecutionNeverGoesBack(es, front, id);
      hide Step, Rank;
      ExecutionOnlyMovesForward(Run(es + front), more[|more| - 1], id);
      RankIsKept();
    }
  }

  lemma RankIsKept()
    ensures forall a: ExecutionStatus, b: ExecutionStatus :: Rank(b) == Rank(a) + 1 ==> Rank(a) < 3
  {}

  // ----- what the status and the claims are, by history -----

  /** The event is a decision on `id` that counts: by its owner, on an approval that exists. */
  ghost predicate Decides(es: seq<Event>, i: nat, id: nat) {
    i < |es| && es[i].SetStatus? && es[i].id == id && id < |Run(es[..i])| && Run(es[..i])[id].user == es[i].user
  }

  lemma RunOne(es: seq<Event>, n: nat)
    requires n < |es|
    ensures Run(es[..n + 1]) == Step(Run(es[..n]), es[n])
  {
    hide Step;
    assert es[..n + 1][..n] == es[..n];
  }

  /** What a step leaves as it is, and a step that is no decision besides. */
  lemma StepStays(s: Store, e: Event, id: nat)
    requires id < |s|
    ensures var t := Step(s, e); id < |t| && t[id].user == s[id].user && t[id].crossAppWrite == s[id].crossAppWrite
    ensures var t := Step(s, e); !(e.SetStatus? && e.id == id && e.user == s[id].user) ==>
      t[id].status == s[id].status && t[id].decidedBy == s[id].decidedBy && (s[id].status == Pending ==> t[id] == s[id])
  {}

  lemma {:induction false} StatusStays(es: seq<Event>, i: nat, n: nat, id: nat)
    requires i <= n <= |es| && id < |Run(es[..i])| && forall k :: i <= k < n ==> !Decides(es, k, id)
    ensures id < |Run(es[..n])| && Run(es[..n])[id].status == Run(es[..i])[id].status && Run(es[..n])[id].decidedBy == Run(es[..i])[id].decidedBy
    ensures Run(es[..i])[id].status == Pending ==> Run(es[..n])[id] == Run(es[..i])[id]
    decreases n
  {
    hide Run, Step;
    if i < n {
      StatusStays(es, i, n - 1, id);
      RunOne(es, n - 1);
      StepStays(Run(es[..n - 1]), es[n - 1], id);
      assert !Decides(es, n - 1, id);
    }
  }

  /** An approval's status is the one that was set last, with who decided it last, and pending before the first decision. */
  lemma StatusIsTheLastSet(es: seq<Event>, i: nat, id: nat)
    requires i < |es| && forall k :: i < k < |es| ==> !Decides(es, k, id)
    ensures Decides(es, i, id) ==>
      && id < |Run(es)| && Run(es)[id].status == es[i].status
      && Run(es)[id].decidedBy == if es[i].status == Pending then Run(es[..i])[id].decidedBy else es[i].decidedBy
    ensures es[i].Create? && id == |Run(es[..i])| ==> id < |Run(es)| && Run(es)[id] == Approval(es[i].user, es[i].crossAppWrite, Pending, NotApplicable, None, None)
  {
    assert es[..|es|] == es;
    RunOne(es, i);
    if Decides(es, i, id) || (es[i].Create? && id == |Run(es[..i])|) {
      StatusStays(es, i + 1, |es|, id);
    }
  }

  lemma {:induction false} ApprovedMayRun(es: seq<Event>, id: nat)
    requires id < |Run(es)|
    ensures Run(es)[id].status.Approved? && Run(es)[id].crossAppWrite ==> !Run(es)[id].execution.NotApplicable?
    ensures !Run(es)[id].execution.NotApplicable? ==> Run(es)[id].crossAppWrite
  {
    var n := |es| - 1;
    if id < |Run(es[..n])| { ApprovedMayRun(es[..n], id); }
  }

  /** A claim is granted exactly to the owner of a cross-app write that is approved now and was not claimed before. */
  lemma GrantedIff(es: seq<Event>, user: string, id: nat)
    ensures IsGranted(Run(es), ClaimExecution(user, id), id) <==>
      && id < |Run(es)| && Run(es)[id].user == user && Run(es)[id].crossAppWrite && Run(es)[id].status == Approved
      && Granted(es, id) == 0
  {
    ClaimedAtMostOnce(es, id);
    if id < |Run(es)| { ApprovedMayRun(es, id); }
    hide Run, Granted, Ended;
  }

  /** An outcome is recorded exactly when its owner reports it for a write that is approved now, was claimed, and has no outcome yet. */
  lemma EndedIff(es: seq<Event>, e: Event)
    requires e.CompleteExecution? || e.FailExecution?
    ensures IsEnded(Run(es), e, e.id) <==>
      && e.id < |Run(es)| && Run(es)[e.id].user == e.user && Run(es)[e.id].crossAppWrite && Run(es)[e.id].status == Approved
      && Granted(es, e.id) == 1 && Ended(es, e.id) == 0
  {
    ClaimedAtMostOnce(es, e.id);
    if e.id < |Run(es)| { ApprovedMayRun(es, e.id); }
    hide Run, Granted, Ended;
  }

  /** The outcome that was recorded is read back for ever. */
  lemma OutcomeIsKept(es: seq<Event>, i: nat, id: nat)
    requires i < |es| && IsEnded(Run(es[..i]), es[i], id)
    ensures id < |Run(es)|
    ensures es[i].CompleteExecution? ==> Run(es)[id].execution == Succeeded && Run(es)[id].result == Some(es[i].result)
    ensures es[i].FailExecution? ==> Run(es)[id].execution == Failed && Run(es)[id].result == es[i].error
  {
    RunOne(es, i);
    assert es == es[..i + 1] + es[i + 1..];
    ExecutionNeverGoesBack(es[..i + 1], es[i + 1..], id);
    hide Run;
  }

  // ----- in place -----

  class ApprovalStore {
    var approvals: seq<Approval>

    constructor ()
      ensures approvals == []
    {
      approvals := [];
    }

    method CreateApproval(user: string, crossAppWrite: bool) returns (id: nat)
      modifies this
      ensures approvals == Step(old(approvals), Create(user, crossAppWrite)) && id == |old(approvals)|
    {
      id := |approvals|;
      approvals := approvals + [Approval(user, crossAppWrite, Pending, NotApplicable, None, None)];
    }

    method UpdateApprovalStatus(user: string, id: nat, status: Status, decidedBy: Option<string>) returns (updated: bool)
      modifies this
      ensures approvals == Step(old(approvals), SetStatus(user, id, status, decidedBy))
      ensures updated == Owns(old(approvals), user, id)
    {
      if id >= |approvals| || approvals[id].user != user {
        return false;
      }
      var approval := approvals[id];
      if status.Approved? && approval.crossAppWrite && approval.execution.NotApplicable? {
        approval := approval.(execution := Waiting);
      }
      if !status.Pending? {
        approval := approval.(decidedBy := decidedBy);
      }
      approvals := approvals[id := approval.(status := status)];
      updated := true;
    }

    /** The claim is granted exactly when the execution was waiting. */
    method ClaimApprovalExecution(user: string, id: nat) returns (claimed: Option<Approval>)
      modifies this
      ensures approvals == Step(old(approvals), ClaimExecution(user, id))
      ensures claimed.Some? <==> IsGranted(old(approvals), ClaimExecution(user, id), id)
      ensures claimed.Some? ==> claimed.value == approvals[id] && claimed.value.execution.Running?
    {
      if id >= |approvals| || approvals[id].user != user || !approvals[id].status.Approved? || !approvals[id].crossAppWrite || !approvals[id].execution.Waiting? {
        return None;
      }
      approvals := approvals[id := approvals[id].(execution := Running)];
      claimed := Some(approvals[id]);
    }

    method CompleteApprovalExecution(user: string, id: nat, result: string) returns (done: bool)
      modifies this
      ensures approvals == Step(old(approvals), CompleteExecution(user, id, result))
      ensures done == IsEnded(old(approvals), CompleteExecution(user, id, result), id)
    {
      if id >= |approvals| || approvals[id].user != user || !approvals[id].status.Approved? || !approvals[id].crossAppWrite || !approvals[id].execution.Running? {
        return false;
      }
      approvals := approvals[id := approvals[id].(execution := Succeeded, result := Some(result))];
      done := true;
    }

    method FailApprovalExecution(user: string, id: nat, error: Option<string>) returns (done: bool)
      modifies this
      ensures approvals == Step(old(approvals), FailExecution(user, id, error))
      ensures done == IsEnded(old(approvals), FailExecution(user, id, error), id)
    {
      if id >= |approvals| || approvals[id].user != user || !approvals[id].status.Approved? || !approvals[id].crossAppWrite || !approvals[id].execution.Running? {
        return false;
      }
      approvals := approvals[id := approvals[id].(execution := Failed, result := error)];
      done := true;
    }
  }
}
