/**
 The agent run loop against a model that may answer anything, and the tools it may execute.

 The model's and the tools' behaviour is an arbitrary list of turns; a run that outlasts the list
 meets its deadline, as any model call may.
 */
module AgentRun {
  import opened Wrappers

  type ToolName = string

  const WEB_RESEARCH: ToolName := "web_research"

  // ----- the policy of a turn -----

  datatype Policy = Policy(agentTools: seq<ToolName>, isRead: ToolName -> bool, authorizesMutation: Option<string> -> bool)

  datatype Request = Request(allowedTools: Option<seq<ToolName>>, ownerCommand: Option<string>, external: bool)

  function Distinct(tools: seq<ToolName>): (r: seq<ToolName>)
    ensures forall t :: t in r <==> t in tools
  {
    if tools == [] then []
    else
      var front, last := tools[..|tools| - 1], tools[|tools| - 1];
      assert tools == front + [last];
      if last in front then Distinct(front) else Distinct(front) + [last]
  }

  function OnlyRead(tools: seq<ToolName>, isRead: ToolName -> bool): (r: seq<ToolName>)
    ensures forall t :: t in r <==> t in tools && isRead(t)
  {
    if tools == [] then []
    else
      assert tools == [tools[0]] + tools[1..];
      (if isRead(tools[0]) then [tools[0]] else []) + OnlyRead(tools[1..], isRead)
  }

  function BaseTools(policy: Policy, request: Request): seq<ToolName> {
    Distinct(if request.allowedTools.Some? then request.allowedTools.value else policy.agentTools)
  }

  function AllowedToolsForExternalResearchTurn(policy: Policy, request: Request): seq<ToolName> {
    if policy.authorizesMutation(request.ownerCommand) then BaseTools(policy, request)
    else OnlyRead(BaseTools(policy, request), policy.isRead)
  }

  function AllowedTools(policy: Policy, request: Request): seq<ToolName> {
    if request.external then AllowedToolsForExternalResearchTurn(policy, request) else BaseTools(policy, request)
  }

  // ----- the store -----

  datatype RunStatus = Running | Completed | Failed

  datatype CallStatus = Accepted | Rejected | CallFailed

  datatype ToolCall = ToolCall(runId: nat, tool: ToolName, status: CallStatus)

  // One request to the tool client; the tool may have acted even if the call is then reported failed.
  datatype Execution = Execution(runId: nat, tool: ToolName)

  class RunStore {
    var runs: seq<RunStatus>
    var finishes: seq<nat>
    var calls: seq<ToolCall>
    var executions: seq<Execution>

    constructor ()
      ensures Valid() && runs == [] && calls == [] && executions == []
    {
      runs, finishes, calls, executions := [], [], [], [];
    }

    /** Everything stored belongs to a run, and no run was finished twice. */
    ghost predicate Valid()
      reads this
    {
      && (forall i :: 0 <= i < |finishes| ==> finishes[i] < |runs|)
      && (forall i, j :: 0 <= i < j < |finishes| ==> finishes[i] != finishes[j])
      && (forall i :: 0 <= i < |calls| ==> calls[i].runId < |runs|)
      && (forall i :: 0 <= i < |executions| ==> executions[i].runId < |runs|)
    }

    method CreateAgentRun() returns (id: nat)
      modifies `runs
      ensures id == |old(runs)| && runs == old(runs) + [Running]
    {
      id := |runs|;
      runs := runs + [Running];
    }

    method FinishAgentRun(id: nat, status: RunStatus)
      requires id < |runs|
      modifies `runs, `finishes
      ensures runs == old(runs)[id := status] && finishes == old(finishes) + [id]
    {
      runs := runs[id := status];
      finishes := finishes + [id];
    }

    method RecordToolCall(id: nat, tool: ToolName, status: CallStatus)
      modifies `calls
      ensures calls == old(calls) + [ToolCall(id, tool, status)]
    {
      calls := calls + [ToolCall(id, tool, status)];
    }

    method CountToolCallsForRun(id: nat) returns (count: nat)
      ensures count == CallsOf(calls, id)
    {
      count := 0;
      for i := 0 to |calls|
        invariant count == CallsOf(calls[..i], id)
      {
        assert calls[..i + 1][..i] == calls[..i];
        if calls[i].runId == id {
          count := count + 1;
        }
      }
      assert calls[..|calls|] == calls;
    }

    method Execute(id: nat, tool: ToolName)
      modifies `executions
      ensures executions == old(executions) + [Execution(id, tool)]
    {
      executions := executions + [Execution(id, tool)];
    }
  }

  function CallsOf(calls: seq<ToolCall>, id: nat): nat {
    if calls == [] then 0
    else CallsOf(calls[..|calls| - 1], id) + (if calls[|calls| - 1].runId == id then 1 else 0)
  }

  /** The calls of a new run are those recorded since it began. */
  lemma {:induction false} CallsSince(before: seq<ToolCall>, more: seq<ToolCall>, id: nat)
    requires forall i :: 0 <= i < |before| ==> before[i].runId < id
    requires forall i :: 0 <= i < |more| ==> more[i].runId == id
    ensures CallsOf(before + more, id) == |more|
  {
    var all := before + more;
    if more != [] {
      assert all[..|all| - 1] == before + more[..|more| - 1];
      CallsSince(before, more[..|more| - 1], id);
    } else {
      assert all == before;
      if before != [] {
        assert before[..|before| - 1] + [] == before[..|before| - 1];
        CallsSince(before[..|before| - 1], [], id);
      }
    }
  }

  // ----- turns -----

  /** What becomes of the conversation after a tool result. */
  datatype Next = NoContinuation | Continued | Throws

  datatype ToolBehaviour =
    | Succeeds(sideEffect: string)
    | SucceedsUnrecorded
    | Errors(deadline: bool)

  datatype Turn =
    | NoProposal(response: Option<string>)
    | ModelThrows
    | RepairDeadline(tool: ToolName)
    | Invalid(tool: ToolName, repaired: bool, next: Next)
    | Valid(tool: ToolName, repaired: bool, behaviour: ToolBehaviour, next: Next, synthesis: Option<Option<string>>)

  datatype ToolStatus = ToolNone | ToolAccepted | ToolRejected

  datatype AgentTaskResult = AgentTaskResult(
    completed: bool, runId: Option<nat>, toolStatus: ToolStatus, repaired: bool, tool: Option<ToolName>, response: Option<string>)

  // ----- what a run leaves behind -----

  /** The tools of the calls that were handed to the tool client. */
  function ExecutedTools(calls: seq<ToolCall>): (r: seq<ToolName>)
    ensures |r| <= |calls|
  {
    if calls == [] then []
    else ExecutedTools(calls[..|calls| - 1]) + (if calls[|calls| - 1].status.Rejected? then [] else [calls[|calls| - 1].tool])
  }

  function ToolsOf(executions: seq<Execution>): (r: seq<ToolName>)
    ensures |r| == |executions|
  {
    if executions == [] then [] else ToolsOf(executions[..|executions| - 1]) + [executions[|executions| - 1].tool]
  }

  predicate CallsBy(calls: seq<ToolCall>, id: nat) {
    forall i :: 0 <= i < |calls| ==> calls[i].runId == id
  }

  predicate ExecutionsBy(executions: seq<Execution>, id: nat, allowed: seq<ToolName>) {
    forall i :: 0 <= i < |executions| ==> executions[i].runId == id && executions[i].tool in allowed
  }

  /** Accepted web research ends the run. */
  predicate ResearchIsLast(calls: seq<ToolCall>) {
    forall i :: 0 <= i < |calls| - 1 ==> !(calls[i].tool == WEB_RESEARCH && calls[i].status.Accepted?)
  }

  predicate NoResearch(calls: seq<ToolCall>) {
    forall i :: 0 <= i < |calls| ==> !(calls[i].tool == WEB_RESEARCH && calls[i].status.Accepted?)
  }

  /** The status the loop carries is that of the last recorded call. */
  predicate StatusFits(calls: seq<ToolCall>, status: ToolStatus, tool: Option<ToolName>) {
    if calls == [] then status.ToolNone? && tool.None?
    else
      var last := calls[|calls| - 1];
      tool == Some(last.tool) && status == if last.status.Accepted? then ToolAccepted else ToolRejected
  }

  /** Inside the loop: the run is open, and what was recorded is what was executed. */
  ghost predicate Underway(id: nat, allowed: seq<ToolName>, limit: nat, calls: seq<ToolCall>, executions: seq<Execution>) {
    && CallsBy(calls, id) && ExecutionsBy(executions, id, allowed)
    && ToolsOf(executions) == ExecutedTools(calls)
    && |executions| <= limit && |executions| <= |calls| && NoResearch(calls)
  }

  /** After the run: within the budget and the allow-list, and every execution recorded, except one if recording it threw. */
  ghost predicate Ended(id: nat, allowed: seq<ToolName>, limit: nat, calls: seq<ToolCall>, executions: seq<Execution>, r: AgentTaskResult) {
    && CallsBy(calls, id) && ExecutionsBy(executions, id, allowed) && |executions| <= limit && ResearchIsLast(calls)
    && (|| ToolsOf(executions) == ExecutedTools(calls)
        || (executions != [] && ToolsOf(executions[..|executions| - 1]) == ExecutedTools(calls) && !r.completed && r.toolStatus.ToolNone?))
    && (r.completed ==> StatusFits(calls, r.toolStatus, r.tool))
    && (!r.completed && r.toolStatus.ToolRejected? ==> calls != [] && !calls[|calls| - 1].status.Accepted? && r.tool == Some(calls[|calls| - 1].tool))
  }

  lemma CallAdded(id: nat, allowed: seq<ToolName>, limit: nat, calls: seq<ToolCall>, executions: seq<Execution>, tool: ToolName, status: CallStatus)
    requires Underway(id, allowed, limit, calls, executions)
    requires !status.Rejected? ==> tool in allowed && |calls| < limit
    ensures var calls' := calls + [ToolCall(id, tool, status)];
      var executions' := if status.Rejected? then executions else executions + [Execution(id, tool)];
      && CallsBy(calls', id) && ExecutionsBy(executions', id, allowed) && ToolsOf(executions') == ExecutedTools(calls')
      && |executions'| <= limit && |executions'| <= |calls'| && ResearchIsLast(calls')
      && (!(tool == WEB_RESEARCH && status.Accepted?) ==> NoResearch(calls'))
      && calls'[|calls'| - 1] == ToolCall(id, tool, status)
  {
    var calls' := calls + [ToolCall(id, tool, status)];
    assert calls'[..|calls'| - 1] == calls;
    if !status.Rejected? {
      var executions' := executions + [Execution(id, tool)];
      assert executions'[..|executions'| - 1] == executions;
    }
  }

  // ----- how a run goes -----

  const NOTHING := AgentTaskResult(false, None, ToolNone, false, None, None)

  predicate IsRepaired(turn: Turn) {
    (turn.Invalid? || turn.Valid?) && turn.repaired
  }

  /** After `used` recorded calls the run goes on: the model continues after a failed validation, or after a tool that was executed. */
  predicate Continues(turn: Turn, used: nat, allowed: seq<ToolName>, limit: nat) {
    match turn
    case Invalid(_, _, next) => next == Continued
    case Valid(tool, _, behaviour, next, _) =>
      && tool in allowed && used < limit && next == Continued
      && behaviour != SucceedsUnrecorded && behaviour != Errors(true) && !(behaviour.Succeeds? && tool == "web_research")
    case _ => false
  }

  /** The call that a turn leaves in the store, if it leaves one. */
  function Recorded(turn: Turn, used: nat, allowed: seq<ToolName>, limit: nat, id: nat): (r: seq<ToolCall>)
    ensures |r| <= 1
    ensures Continues(turn, used, allowed, limit) ==> |r| == 1
  {
    match turn
    case RepairDeadline(tool) => [ToolCall(id, tool, Rejected)]
    case Invalid(tool, _, _) => [ToolCall(id, tool, Rejected)]
    case Valid(tool, _, behaviour, _, _) =>
      if tool !in allowed || used >= limit then [ToolCall(id, tool, Rejected)]
      else if behaviour.Succeeds? then [ToolCall(id, tool, Accepted)]
      else if behaviour.Errors? then [ToolCall(id, tool, CallFailed)]
      else []
    case _ => []
  }

  /** Something threw: the run failed and names no tool. */
  predicate Broke(r: AgentTaskResult) {
    !r.completed && r.toolStatus == ToolNone && r.tool == None && r.response == None
  }

  /** The run failed with this tool. */
  predicate Refused(r: AgentTaskResult, tool: ToolName) {
    !r.completed && r.toolStatus == ToolRejected && r.tool == Some(tool) && r.response == None
  }

  predicate Answered(r: AgentTaskResult, response: Option<string>) {
    r.completed && r.response == response
  }

  /** Unless something threw, the run reports whether a call was repaired. */
  predicate CarriesRepaired(r: AgentTaskResult, repaired: bool) {
    r.completed || r.toolStatus == ToolRejected ==> r.repaired == repaired
  }

  /** What the run returns when this is the turn that ends it. */
  predicate EndsAs(turn: Turn, used: nat, allowed: seq<ToolName>, limit: nat, isRead: ToolName -> bool, r: AgentTaskResult) {
    match turn
    case NoProposal(response) => Answered(r, response)
    case ModelThrows => Broke(r)
    case RepairDeadline(tool) => Refused(r, tool)
    case Invalid(tool, _, next) => if next == Throws then Broke(r) else Refused(r, tool)
    case Valid(tool, _, behaviour, next, synthesis) =>
      if tool !in allowed || used >= limit then Refused(r, tool)
      else
        match behaviour
        case SucceedsUnrecorded => Broke(r)
        case Errors(deadline) => if !deadline && next == Throws then Broke(r) else Refused(r, tool)
        case Succeeds(_) =>
          if tool == "web_research" then Answered(r, if synthesis.Some? then synthesis.value else None)
          else if next == Throws then Broke(r)
          else if !isRead(tool) then Answered(r, None)
          else if synthesis == None then Broke(r)
          else Answered(r, synthesis.value)
  }

  /** Turn `i` is the first that the run does not go on after; if there is none, the turns run out and the model call meets its deadline. */
  ghost predicate StopsAt(turns: seq<Turn>, i: nat, allowed: seq<ToolName>, limit: nat) {
    && i <= |turns|
    && (forall k :: 0 <= k < i ==> Continues(turns[k], k, allowed, limit))
    && (i < |turns| ==> !Continues(turns[i], i, allowed, limit))
  }

  /** Every turn before `i` left its call, in order, and the last one left its own. */
  predicate LeftCalls(calls: seq<ToolCall>, turns: seq<Turn>, i: nat, allowed: seq<ToolName>, limit: nat, id: nat)
    requires i <= |turns|
  {
    && i <= |calls| && (forall k :: 0 <= k < i ==> Recorded(turns[k], k, allowed, limit, id) == [calls[k]])
    && calls[i..] == if i < |turns| then Recorded(turns[i], i, allowed, limit, id) else []
  }

  /** How the run goes, given where it stops. */
  ghost predicate GoesAs(turns: seq<Turn>, i: nat, allowed: seq<ToolName>, limit: nat, isRead: ToolName -> bool, id: nat, r: AgentTaskResult, calls: seq<ToolCall>)
    requires i <= |turns|
  {
    && LeftCalls(calls, turns, i, allowed, limit, id)
    && (if i < |turns| then EndsAs(turns[i], i, allowed, limit, isRead, r) else Broke(r))
    && CarriesRepaired(r, exists k :: 0 <= k <= i && k < |turns| && IsRepaired(turns[k]))
  }

  lemma {:induction false} SomeStop(turns: seq<Turn>, i: nat, allowed: seq<ToolName>, limit: nat) returns (stop: nat)
    requires i <= |turns| && forall k :: 0 <= k < i ==> Continues(turns[k], k, allowed, limit)
    ensures i <= stop && StopsAt(turns, stop, allowed, limit)
    decreases |turns| - i
  {
    stop := i;
    if i < |turns| && Continues(turns[i], i, allowed, limit) { stop := SomeStop(turns, i + 1, allowed, limit); }
  }

  /** Every run stops at exactly one place. */
  lemma StopsOnce(turns: seq<Turn>, allowed: seq<ToolName>, limit: nat)
    ensures exists i :: StopsAt(turns, i, allowed, limit) && forall j :: StopsAt(turns, j, allowed, limit) ==> j == i
  {
    hide Continues;
    var i := SomeStop(turns, 0, allowed, limit);
  }

  // ----- the loop -----

  /** The store as it was when the run began. */
  datatype Before = Before(runs: seq<RunStatus>, finishes: seq<nat>, calls: seq<ToolCall>, executions: seq<Execution>)

  predicate Belongs(b: Before) {
    && (forall i :: 0 <= i < |b.finishes| ==> b.finishes[i] < |b.runs|)
    && (forall i, j :: 0 <= i < j < |b.finishes| ==> b.finishes[i] != b.finishes[j])
    && (forall i :: 0 <= i < |b.calls| ==> b.calls[i].runId < |b.runs|)
    && (forall i :: 0 <= i < |b.executions| ==> b.executions[i].runId < |b.runs|)
  }

  ghost predicate Since(store: RunStore, b: Before, calls: seq<ToolCall>, executions: seq<Execution>)
    reads store
  {
    store.calls == b.calls + calls && store.executions == b.executions + executions
  }

  ghost predicate IsOpen(store: RunStore, b: Before)
    reads store
  {
    store.runs == b.runs + [Running] && store.finishes == b.finishes
  }

  /** Finished once, with the status that is returned. */
  ghost predicate IsFinished(store: RunStore, b: Before, r: AgentTaskResult)
    reads store
  {
    && r.runId == Some(|b.runs|) && store.finishes == b.finishes + [|b.runs|]
    && store.runs == b.runs + [if r.completed then Completed else Failed]
  }

  method Finish(store: RunStore, r: AgentTaskResult, ghost b: Before)
    requires IsOpen(store, b) && r.runId == Some(|b.runs|)
    modifies store`runs, store`finishes
    ensures IsFinished(store, b, r)
  {
    store.FinishAgentRun(r.runId.value, if r.completed then Completed else Failed);
  }

  /** The outer catch: whatever threw, the run is finished as failed and no tool is reported. */
  method Caught(store: RunStore, id: nat, ghost b: Before) returns (r: AgentTaskResult)
    requires IsOpen(store, b) && id == |b.runs|
    modifies store`runs, store`finishes
    ensures IsFinished(store, b, r) && r == AgentTaskResult(false, Some(id), ToolNone, false, None, None)
  {
    r := AgentTaskResult(false, Some(id), ToolNone, false, None, None);
    Finish(store, r, b);
  }

  /** A call is recorded as rejected without being executed, and the run fails. */
  method Reject(store: RunStore, id: nat, tool: ToolName, repaired: bool, ghost b: Before, ghost allowed: seq<ToolName>, ghost limit: nat,
    ghost calls: seq<ToolCall>, ghost executions: seq<Execution>)
    returns (r: AgentTaskResult, ghost calls': seq<ToolCall>)
    requires IsOpen(store, b) && id == |b.runs| && Since(store, b, calls, executions)
    requires Underway(id, allowed, limit, calls, executions)
    modifies store
    ensures IsFinished(store, b, r) && Since(store, b, calls', executions)
    ensures calls' == calls + [ToolCall(id, tool, Rejected)]
    ensures Refused(r, tool) && r.repaired == repaired
    ensures Ended(id, allowed, limit, calls', executions, r)
  {
    CallAdded(id, allowed, limit, calls, executions, tool, Rejected);
    store.RecordToolCall(id, tool, Rejected);
    calls' := calls + [ToolCall(id, tool, Rejected)];
    r := AgentTaskResult(false, Some(id), ToolRejected, repaired, Some(tool), None);
    EndedAfter(id, allowed, limit, calls', executions, r);
    hide Ended, Underway;
    Finish(store, r, b);
  }

  datatype Progress = Progress(repaired: bool, toolStatus: ToolStatus, tool: Option<ToolName>)

  /** A proposal that did not validate: recorded, and fed back to the model if it can continue. */
  method InvalidTurn(store: RunStore, id: nat, turn: Turn, p: Progress, ghost b: Before, ghost allowed: seq<ToolName>, ghost limit: nat,
    ghost calls: seq<ToolCall>, ghost executions: seq<Execution>)
    returns (done: Option<AgentTaskResult>, p': Progress, ghost calls': seq<ToolCall>)
    requires turn.Invalid? && IsOpen(store, b) && id == |b.runs| && Since(store, b, calls, executions)
    requires Underway(id, allowed, limit, calls, executions)
    modifies store
    ensures Since(store, b, calls', executions) && calls' == calls + [ToolCall(id, turn.tool, Rejected)]
    ensures done.None? <==> turn.next.Continued?
    ensures p'.repaired == (p.repaired || turn.repaired)
    ensures done.Some? ==> (if turn.next.Throws? then Broke(done.value) else Refused(done.value, turn.tool)) && CarriesRepaired(done.value, p'.repaired)
    ensures done.None? ==> IsOpen(store, b) && Underway(id, allowed, limit, calls', executions) && StatusFits(calls', p'.toolStatus, p'.tool)
    ensures done.Some? ==> IsFinished(store, b, done.value) && Ended(id, allowed, limit, calls', executions, done.value)
  {
    p' := Progress(p.repaired || turn.repaired, ToolRejected, Some(turn.tool));
    CallAdded(id, allowed, limit, calls, executions, turn.tool, Rejected);
    store.RecordToolCall(id, turn.tool, Rejected);
    calls' := calls + [ToolCall(id, turn.tool, Rejected)];
    StillUnderway(id, allowed, limit, calls', executions);
    assert StatusFits(calls', p'.toolStatus, p'.tool);
    hide Ended, Underway;
    match turn.next
    case Continued =>
      done := None;
    case Throws =>
      var r := Caught(store, id, b);
      EndedHere(id, allowed, limit, calls', executions, r);
      done := Some(r);
    case NoContinuation =>
      var r := AgentTaskResult(false, Some(id), p'.toolStatus, p'.repaired, p'.tool, None);
      EndedFailed(id, allowed, limit, calls', executions, r);
      Finish(store, r, b);
      done := Some(r);
  }

  /** After a recorded call: the conversation continues, throws, or ends with this call. */
  method Conclude(store: RunStore, policy: Policy, id: nat, turn: Turn, p: Progress, ghost b: Before, ghost allowed: seq<ToolName>, ghost limit: nat,
    ghost calls: seq<ToolCall>, ghost executions: seq<Execution>)
    returns (done: Option<AgentTaskResult>)
    requires turn.Valid? && IsOpen(store, b) && id == |b.runs| && Since(store, b, calls, executions)
    requires Underway(id, allowed, limit, calls, executions) && StatusFits(calls, p.toolStatus, p.tool) && calls != []
    requires p.tool == Some(turn.tool) && p.toolStatus == if turn.behaviour.Errors? then ToolRejected else ToolAccepted
    modifies store`runs, store`finishes
    ensures Since(store, b, calls, executions)
    ensures done.None? ==> IsOpen(store, b)
    ensures done.None? <==> turn.next.Continued? && turn.behaviour != Errors(true)
    ensures done.Some? ==> CarriesRepaired(done.value, p.repaired)
    ensures done.Some? ==>
      if turn.behaviour.Errors? then (if turn.behaviour == Errors(false) && turn.next.Throws? then Broke(done.value) else Refused(done.value, turn.tool))
      else if turn.next.Throws? then Broke(done.value)
      else if !policy.isRead(turn.tool) then Answered(done.value, None)
      else if turn.synthesis.None? then Broke(done.value)
      else Answered(done.value, turn.synthesis.value)
    ensures done.Some? ==> IsFinished(store, b, done.value) && Ended(id, allowed, limit, calls, executions, done.value)
  {
    hide Ended, Underway, StatusFits;
    var failed := turn.behaviour.Errors?;
    var ask := !(failed && turn.behaviour.deadline);
    if ask && turn.next.Continued? {
      done := None;
    } else if (ask && turn.next.Throws?) || (!failed && policy.isRead(turn.tool) && turn.synthesis.None?) {
      var r := Caught(store, id, b);   // the continuation threw, or the deadline struck while the answer was written
      EndedHere(id, allowed, limit, calls, executions, r);
      done := Some(r);
    } else {
      var response := if !failed && policy.isRead(turn.tool) then turn.synthesis.value else None;
      var r := AgentTaskResult(!failed, Some(id), p.toolStatus, p.repaired, p.tool, response);
      EndedFailed(id, allowed, limit, calls, executions, r);
      Finish(store, r, b);
      done := Some(r);
    }
  }

  /** An allowed call within the budget: executed and recorded; accepted web research ends the run. */
  method ExecuteTurn(store: RunStore, policy: Policy, id: nat, turn: Turn, p: Progress, ghost b: Before, ghost allowed: seq<ToolName>, ghost limit: nat,
    ghost calls: seq<ToolCall>, ghost executions: seq<Execution>)
    returns (done: Option<AgentTaskResult>, p': Progress, ghost calls': seq<ToolCall>, ghost executions': seq<Execution>)
    requires turn.Valid? && !turn.behaviour.SucceedsUnrecorded? && turn.tool in allowed && |calls| < limit
    requires IsOpen(store, b) && id == |b.runs| && Since(store, b, calls, executions)
    requires Underway(id, allowed, limit, calls, executions)
    modifies store
    ensures Since(store, b, calls', executions')
    ensures calls' == calls + [ToolCall(id, turn.tool, if turn.behaviour.Errors? then CallFailed else Accepted)]
    ensures executions' == executions + [Execution(id, turn.tool)]
    ensures done.None? <==> Continues(turn, |calls|, allowed, limit)
    ensures p'.repaired == (p.repaired || turn.repaired)
    ensures done.Some? ==> EndsAs(turn, |calls|, allowed, limit, policy.isRead, done.value) && CarriesRepaired(done.value, p.repaired || turn.repaired)
    ensures done.None? ==> IsOpen(store, b) && Underway(id, allowed, limit, calls', executions') && StatusFits(calls', p'.toolStatus, p'.tool)
    ensures done.Some? ==> IsFinished(store, b, done.value) && Ended(id, allowed, limit, calls', executions', done.value)
  {
    hide Underway, Ended, CallsBy, ExecutionsBy, ToolsOf, ExecutedTools, NoResearch, ResearchIsLast, EndsAs, Continues;
    var status := if turn.behaviour.Errors? then CallFailed else Accepted;
    p' := Progress(p.repaired || turn.repaired, if turn.behaviour.Errors? then ToolRejected else ToolAccepted, Some(turn.tool));
    CallAdded(id, allowed, limit, calls, executions, turn.tool, status);
    store.Execute(id, turn.tool);
    store.RecordToolCall(id, turn.tool, status);
    calls', executions' := calls + [ToolCall(id, turn.tool, status)], executions + [Execution(id, turn.tool)];
    if turn.behaviour.Succeeds? && turn.tool == WEB_RESEARCH {
      var r := AgentTaskResult(true, Some(id), p'.toolStatus, p'.repaired, p'.tool, if turn.synthesis.Some? then turn.synthesis.value else None);
      EndedAfter(id, allowed, limit, calls', executions', r);
      Finish(store, r, b);
      done := Some(r);
    } else {
      StillUnderway(id, allowed, limit, calls', executions');
      done := Conclude(store, policy, id, turn, p', b, allowed, limit, calls', executions');
    }
    Executed(turn, |calls|, allowed, limit, policy.isRead, if done.Some? then done.value else NOTHING);
  }

  lemma TurnedAway(turn: Turn, used: nat, allowed: seq<ToolName>, limit: nat, isRead: ToolName -> bool, r: AgentTaskResult)
    requires turn.Valid? && (turn.tool !in allowed || used >= limit)
    ensures !Continues(turn, used, allowed, limit) && EndsAs(turn, used, allowed, limit, isRead, r) == Refused(r, turn.tool)
  {}

  lemma Unrecorded(turn: Turn, used: nat, allowed: seq<ToolName>, limit: nat, isRead: ToolName -> bool, r: AgentTaskResult)
    requires turn.Valid? && turn.tool in allowed && used < limit && turn.behaviour.SucceedsUnrecorded?
    ensures !Continues(turn, used, allowed, limit) && EndsAs(turn, used, allowed, limit, isRead, r) == Broke(r)
  {}

  lemma Executed(turn: Turn, used: nat, allowed: seq<ToolName>, limit: nat, isRead: ToolName -> bool, r: AgentTaskResult)
    requires turn.Valid? && turn.tool in allowed && used < limit && !turn.behaviour.SucceedsUnrecorded?
    ensures turn.behaviour.Succeeds? && turn.tool == WEB_RESEARCH ==>
      && !Continues(turn, used, allowed, limit)
      && EndsAs(turn, used, allowed, limit, isRead, r) == Answered(r, if turn.synthesis.Some? then turn.synthesis.value else None)
    ensures !(turn.behaviour.Succeeds? && turn.tool == WEB_RESEARCH) ==>
      && (Continues(turn, used, allowed, limit) <==> turn.next.Continued? && turn.behaviour != Errors(true))
      && EndsAs(turn, used, allowed, limit, isRead, r) ==
        if turn.behaviour.Errors? then (if turn.behaviour == Errors(false) && turn.next.Throws? then Broke(r) else Refused(r, turn.tool))
        else if turn.next.Throws? then Broke(r)
        else if !isRead(turn.tool) then Answered(r, None)
        else if turn.synthesis.None? then Broke(r)
        else Answered(r, turn.synthesis.value)
  {}

  /** A call that was executed and whose recording threw. */
  method ExecuteUnrecorded(store: RunStore, id: nat, tool: ToolName, ghost b: Before, ghost allowed: seq<ToolName>, ghost limit: nat,
    ghost calls: seq<ToolCall>, ghost executions: seq<Execution>)
    returns (r: AgentTaskResult, ghost executions': seq<Execution>)
    requires tool in allowed && |calls| < limit && IsOpen(store, b) && id == |b.runs| && Since(store, b, calls, executions)
    requires Underway(id, allowed, limit, calls, executions)
    modifies store
    ensures Since(store, b, calls, executions') && executions' == executions + [Execution(id, tool)]
    ensures Broke(r) && IsFinished(store, b, r) && Ended(id, allowed, limit, calls, executions', r)
  {
    hide Ended, Underway;
    store.Execute(id, tool);
    EndedUnrecorded(id, allowed, limit, calls, executions, tool);
    executions' := executions + [Execution(id, tool)];
    r := Caught(store, id, b);
  }

  /** A validated call: checked against the allow-list, then against the budget, then executed. */
  method ValidTurn(store: RunStore, policy: Policy, id: nat, turn: Turn, p: Progress, allowed: seq<ToolName>, limit: nat, ghost b: Before,
    ghost calls: seq<ToolCall>, ghost executions: seq<Execution>)
    returns (done: Option<AgentTaskResult>, p': Progress, ghost calls': seq<ToolCall>, ghost executions': seq<Execution>)
    requires turn.Valid? && IsOpen(store, b) && id == |b.runs| && Belongs(b) && Since(store, b, calls, executions)
    requires Underway(id, allowed, limit, calls, executions)
    modifies store
    ensures Since(store, b, calls', executions')
    ensures turn.tool !in allowed || |calls| >= limit ==>
      && done.Some? && !done.value.completed && executions' == executions && calls' == calls + [ToolCall(id, turn.tool, Rejected)]
    ensures turn.tool in allowed && |calls| < limit ==>
      && executions' == executions + [Execution(id, turn.tool)]
      && (if turn.behaviour.SucceedsUnrecorded? then calls' == calls && done.Some? && !done.value.completed
          else calls' == calls + [ToolCall(id, turn.tool, if turn.behaviour.Errors? then CallFailed else Accepted)])
    ensures done.None? <==> Continues(turn, |calls|, allowed, limit)
    ensures done.None? ==> p'.repaired == (p.repaired || turn.repaired)
    ensures done.Some? ==> EndsAs(turn, |calls|, allowed, limit, policy.isRead, done.value) && CarriesRepaired(done.value, p.repaired || turn.repaired)
    ensures done.None? ==> IsOpen(store, b) && Underway(id, allowed, limit, calls', executions') && StatusFits(calls', p'.toolStatus, p'.tool)
    ensures done.Some? ==> IsFinished(store, b, done.value) && Ended(id, allowed, limit, calls', executions', done.value)
  {
    p' := p;
    CallsSince(b.calls, calls, id);
    hide Ended, Underway, CallsBy, Belongs, CallsOf, StatusFits, EndsAs, Continues;
    var toolCallsSoFar := store.CountToolCallsForRun(id);
    hide Since, IsOpen, IsFinished;
    if turn.tool !in allowed || toolCallsSoFar >= limit {
      executions' := executions;
      var r;
      r, calls' := Reject(store, id, turn.tool, p.repaired || turn.repaired, b, allowed, limit, calls, executions);
      TurnedAway(turn, |calls|, allowed, limit, policy.isRead, r);
      done := Some(r);
    } else if turn.behaviour.SucceedsUnrecorded? {
      calls' := calls;
      var r;
      r, executions' := ExecuteUnrecorded(store, id, turn.tool, b, allowed, limit, calls, executions);
      Unrecorded(turn, |calls|, allowed, limit, policy.isRead, r);
      done := Some(r);
    } else {
      done, p', calls', executions' := ExecuteTurn(store, policy, id, turn, p, b, allowed, limit, calls, executions);
    }
  }

  method TakeTurn(store: RunStore, policy: Policy, id: nat, turn: Turn, p: Progress, allowed: seq<ToolName>, limit: nat, ghost b: Before,
    ghost calls: seq<ToolCall>, ghost executions: seq<Execution>)
    returns (done: Option<AgentTaskResult>, p': Progress, ghost calls': seq<ToolCall>, ghost executions': seq<Execution>)
    requires IsOpen(store, b) && id == |b.runs| && Belongs(b) && Since(store, b, calls, executions)
    requires Underway(id, allowed, limit, calls, executions) && StatusFits(calls, p.toolStatus, p.tool)
    modifies store
    ensures Since(store, b, calls', executions')
    ensures done.None? <==> Continues(turn, |calls|, allowed, limit)
    ensures calls' == calls + Recorded(turn, |calls|, allowed, limit, id)
    ensures done.None? ==> p'.repaired == (p.repaired || IsRepaired(turn))
    ensures done.Some? ==> EndsAs(turn, |calls|, allowed, limit, policy.isRead, done.value) && CarriesRepaired(done.value, p.repaired || IsRepaired(turn))
    ensures done.None? ==> IsOpen(store, b) && Underway(id, allowed, limit, calls', executions') && StatusFits(calls', p'.toolStatus, p'.tool)
    ensures done.Some? ==> IsFinished(store, b, done.value) && Ended(id, allowed, limit, calls', executions', done.value)
  {
    hide Ended, Underway, Belongs;
    p', calls', executions' := p, calls, executions;
    match turn
    case NoProposal(response) =>
      var r := AgentTaskResult(true, Some(id), p.toolStatus, p.repaired, p.tool, response);
      EndedHere(id, allowed, limit, calls, executions, r);
      Finish(store, r, b);
      done := Some(r);
    case ModelThrows =>
      var r := Caught(store, id, b);
      EndedHere(id, allowed, limit, calls, executions, r);
      done := Some(r);
    case RepairDeadline(tool) =>
      var r;
      r, calls' := Reject(store, id, tool, p.repaired, b, allowed, limit, calls, executions);
      done := Some(r);
    case Invalid(_, _, _) =>
      done, p', calls' := InvalidTurn(store, id, turn, p, b, allowed, limit, calls, executions);
    case Valid(_, _, _, _, _) =>
      done, p', calls', executions' := ValidTurn(store, policy, id, turn, p, allowed, limit, b, calls, executions);
  }

  lemma NothingYet(id: nat, allowed: seq<ToolName>, limit: nat)
    ensures Underway(id, allowed, limit, [], [])
    ensures Ended(id, allowed, limit, [], [], AgentTaskResult(false, None, ToolNone, false, None, None))
  {}

  lemma EndedHere(id: nat, allowed: seq<ToolName>, limit: nat, calls: seq<ToolCall>, executions: seq<Execution>, r: AgentTaskResult)
    requires Underway(id, allowed, limit, calls, executions)
    requires r.completed ==> StatusFits(calls, r.toolStatus, r.tool)
    requires !r.completed ==> r.toolStatus.ToolNone?
    ensures Ended(id, allowed, limit, calls, executions, r)
  {}

  lemma EndedAfter(id: nat, allowed: seq<ToolName>, limit: nat, calls: seq<ToolCall>, executions: seq<Execution>, r: AgentTaskResult)
    requires CallsBy(calls, id) && ExecutionsBy(executions, id, allowed) && ToolsOf(executions) == ExecutedTools(calls)
    requires |executions| <= limit && ResearchIsLast(calls) && calls != []
    requires StatusFits(calls, r.toolStatus, r.tool)
    ensures Ended(id, allowed, limit, calls, executions, r)
  {}

  lemma EndedFailed(id: nat, allowed: seq<ToolName>, limit: nat, calls: seq<ToolCall>, executions: seq<Execution>, r: AgentTaskResult)
    requires Underway(id, allowed, limit, calls, executions) && StatusFits(calls, r.toolStatus, r.tool) && calls != []
    ensures Ended(id, allowed, limit, calls, executions, r)
  {}

  lemma EndedUnrecorded(id: nat, allowed: seq<ToolName>, limit: nat, calls: seq<ToolCall>, executions: seq<Execution>, tool: ToolName)
    requires Underway(id, allowed, limit, calls, executions) && tool in allowed && |calls| < limit
    ensures Ended(id, allowed, limit, calls, executions + [Execution(id, tool)], AgentTaskResult(false, Some(id), ToolNone, false, None, None))
  {
    assert (executions + [Execution(id, tool)])[..|executions|] == executions;
  }

  lemma StillUnderway(id: nat, allowed: seq<ToolName>, limit: nat, calls: seq<ToolCall>, executions: seq<Execution>)
    requires CallsBy(calls, id) && ExecutionsBy(executions, id, allowed) && ToolsOf(executions) == ExecutedTools(calls)
    requires |executions| <= limit && |executions| <= |calls| && NoResearch(calls)
    ensures Underway(id, allowed, limit, calls, executions)
  {}

  /** The place where the loop stopped is the only one. */
  lemma GoesOn(turns: seq<Turn>, i: nat, allowed: seq<ToolName>, limit: nat, isRead: ToolName -> bool, id: nat, r: AgentTaskResult, calls: seq<ToolCall>)
    requires StopsAt(turns, i, allowed, limit) && GoesAs(turns, i, allowed, limit, isRead, id, r, calls)
    ensures forall j: nat :: StopsAt(turns, j, allowed, limit) ==>
      && GoesAs(turns, j, allowed, limit, isRead, id, r, calls)
      && (j < |turns| && turns[j].NoProposal? ==> r.completed && r.response == turns[j].response)
  {
    hide Continues, Recorded, IsRepaired;
    forall j: nat | StopsAt(turns, j, allowed, limit) ensures j == i {}
  }

  lemma FinishedIsValid(store: RunStore, b: Before, allowed: seq<ToolName>, limit: nat, calls: seq<ToolCall>, executions: seq<Execution>, r: AgentTaskResult)
    requires Belongs(b) && IsFinished(store, b, r) && Since(store, b, calls, executions) && Ended(|b.runs|, allowed, limit, calls, executions, r)
    ensures store.Valid()
  {
    hide StatusFits, ToolsOf, ExecutedTools, ResearchIsLast;
  }

  lemma ExecutedWereAllowed(executions: seq<Execution>, id: nat, allowed: seq<ToolName>)
    requires ExecutionsBy(executions, id, allowed)
    ensures forall e <- executions :: e.tool in allowed && e.runId == id
  {}

  /** A tool may be used exactly when it is offered and, on outside evidence without a command to change something, only reads; none is listed twice. */
  lemma AllowedToolsAre(policy: Policy, request: Request)
    ensures forall t :: t in AllowedTools(policy, request) <==>
      && t in (if request.allowedTools.Some? then request.allowedTools.value else policy.agentTools)
      && (!request.external || policy.authorizesMutation(request.ownerCommand) || policy.isRead(t))
    ensures Apart(AllowedTools(policy, request))
  {
    var tools := if request.allowedTools.Some? then request.allowedTools.value else policy.agentTools;
    DistinctAre(tools);
    OnlyReadApart(Distinct(tools), policy.isRead);
    hide Apart, Distinct, OnlyRead;
  }

  predicate Apart(tools: seq<ToolName>) {
    forall i, j :: 0 <= i < j < |tools| ==> tools[i] != tools[j]
  }

  lemma {:induction false} DistinctAre(tools: seq<ToolName>)
    ensures Apart(Distinct(tools))
  {
    if tools != [] { DistinctAre(tools[..|tools| - 1]); }
  }

  lemma {:induction false} OnlyReadApart(tools: seq<ToolName>, isRead: ToolName -> bool)
    requires Apart(tools)
    ensures Apart(OnlyRead(tools, isRead))
  {
    if tools != [] {
      var rest := OnlyRead(tools[1..], isRead);
      OnlyReadApart(tools[1..], isRead);
      assert tools[0] !in rest by { assert tools[0] !in tools[1..]; }
    }
  }

  /** Executions stay within the budget and the allow-list; with external evidence and no mutation command, only read tools are executed. */
  lemma ExecutionsAreBounded(policy: Policy, request: Request, id: nat, limit: nat, calls: seq<ToolCall>, executions: seq<Execution>, r: AgentTaskResult)
    requires Ended(id, AllowedTools(policy, request), limit, calls, executions, r)
    ensures |executions| <= limit
    ensures forall e <- executions :: e.tool in (if request.allowedTools.Some? then request.allowedTools.value else policy.agentTools)
    ensures request.external && !policy.authorizesMutation(request.ownerCommand) ==> forall e <- executions :: policy.isRead(e.tool)
  {
    hide AllowedTools;
    ExecutedWereAllowed(executions, id, AllowedTools(policy, request));
    AllowedToolsAre(policy, request);
  }

  /**
   One agent run, for every behaviour of the model and the tools: a created run is finished exactly
   once with the status it returns, and its executions stay within the budget and the allow-list.
   */
  method RunAgentTask(store: RunStore, policy: Policy, request: Request, tooManyRuns: bool, turns: seq<Turn>, maxToolCallsPerRun: nat)
    returns (r: AgentTaskResult, ghost newCalls: seq<ToolCall>, ghost newExecutions: seq<Execution>)
    requires store.Valid()
    modifies store
    ensures store.Valid()
    ensures tooManyRuns ==>
      && r == AgentTaskResult(false, None, ToolNone, false, None, None) && newCalls == [] && newExecutions == []
      && store.runs == old(store.runs) && store.finishes == old(store.finishes)
    ensures !tooManyRuns ==>
      && r.runId == Some(|old(store.runs)|)
      && store.runs == old(store.runs) + [if r.completed then Completed else Failed]
      && store.finishes == old(store.finishes) + [|old(store.runs)|]
    ensures store.calls == old(store.calls) + newCalls && store.executions == old(store.executions) + newExecutions
    ensures Ended(|old(store.runs)|, AllowedTools(policy, request), maxToolCallsPerRun, newCalls, newExecutions, r)
    ensures !tooManyRuns ==> forall i: nat :: StopsAt(turns, i, AllowedTools(policy, request), maxToolCallsPerRun) ==>
      && GoesAs(turns, i, AllowedTools(policy, request), maxToolCallsPerRun, policy.isRead, |old(store.runs)|, r, newCalls)
      && (i < |turns| && turns[i].NoProposal? ==> r.completed && r.response == turns[i].response)
    ensures |newExecutions| <= maxToolCallsPerRun
    ensures forall e <- newExecutions :: e.tool in (if request.allowedTools.Some? then request.allowedTools.value else policy.agentTools)
    ensures request.external && !policy.authorizesMutation(request.ownerCommand) ==> forall e <- newExecutions :: policy.isRead(e.tool)
  {
    hide AllowedTools, Underway, Ended, Continues, EndsAs, Recorded, IsRepaired;
    newCalls, newExecutions := [], [];
    NothingYet(|store.runs|, AllowedTools(policy, request), maxToolCallsPerRun);
    if tooManyRuns {
      r := AgentTaskResult(false, None, ToolNone, false, None, None);
      return;
    }
    ghost var b := Before(store.runs, store.finishes, store.calls, store.executions);
    var allowedTools := AllowedTools(policy, request);
    var id := store.CreateAgentRun();
    var p := Progress(false, ToolNone, None);
    for i := 0 to |turns|
      invariant IsOpen(store, b) && Since(store, b, newCalls, newExecutions) && Belongs(b)
      invariant Underway(id, allowedTools, maxToolCallsPerRun, newCalls, newExecutions) && StatusFits(newCalls, p.toolStatus, p.tool)
      invariant |newCalls| == i && forall k :: 0 <= k < i ==> Continues(turns[k], k, allowedTools, maxToolCallsPerRun)
      invariant forall k :: 0 <= k < i ==> Recorded(turns[k], k, allowedTools, maxToolCallsPerRun, id) == [newCalls[k]]
      invariant p.repaired <==> exists k :: 0 <= k < i && IsRepaired(turns[k])
    {
      var done;
      done, p, newCalls, newExecutions := TakeTurn(store, policy, id, turns[i], p, allowedTools, maxToolCallsPerRun, b, newCalls, newExecutions);
      if done.Some? {
        r := done.value;
        GoesOn(turns, i, allowedTools, maxToolCallsPerRun, policy.isRead, id, r, newCalls);
        FinishedIsValid(store, b, allowedTools, maxToolCallsPerRun, newCalls, newExecutions, r);
        ExecutionsAreBounded(policy, request, id, maxToolCallsPerRun, newCalls, newExecutions, r);
        return;
      }
    }
    r := Caught(store, id, b);
    GoesOn(turns, |turns|, allowedTools, maxToolCallsPerRun, policy.isRead, id, r, newCalls);
    EndedHere(id, allowedTools, maxToolCallsPerRun, newCalls, newExecutions, r);
    FinishedIsValid(store, b, allowedTools, maxToolCallsPerRun, newCalls, newExecutions, r);
    ExecutionsAreBounded(policy, request, id, maxToolCallsPerRun, newCalls, newExecutions, r);
  }

  // ----- what the contract gives -----

  /** A run that completed without a tool has executed none. */
  lemma CompletedWithoutToolExecutedNone(id: nat, allowed: seq<ToolName>, limit: nat, calls: seq<ToolCall>, executions: seq<Execution>, r: AgentTaskResult)
    requires Ended(id, allowed, limit, calls, executions, r)
    ensures r.completed && r.toolStatus.ToolNone? ==> calls == [] && executions == []
    ensures r.completed && r.toolStatus.ToolAccepted? ==> executions != [] && r.tool == Some(executions[|executions| - 1].tool)
  {
    if r.completed && r.toolStatus.ToolAccepted? {
      var tools := ExecutedTools(calls);
      assert tools[|tools| - 1] == calls[|calls| - 1].tool;
      assert ToolsOf(executions)[|executions| - 1] == executions[|executions| - 1].tool;
    }
  }

  /** A call that was allowed and worked, and was recorded as such. */
  predicate Worked(turn: Turn, used: nat, allowed: seq<ToolName>, limit: nat) {
    turn.Valid? && turn.tool in allowed && used < limit && turn.behaviour.Succeeds?
  }

  /**
   A run completes exactly when the model answers, or when a call that worked ends it: web research, or a
   call after which the model does not go on and, if the tool only reads, an answer can be written. The
   response is the answer, the research, or what was written.
   */
  lemma CompletesIff(turns: seq<Turn>, i: nat, allowed: seq<ToolName>, limit: nat, isRead: ToolName -> bool, id: nat, r: AgentTaskResult, calls: seq<ToolCall>)
    requires StopsAt(turns, i, allowed, limit) && GoesAs(turns, i, allowed, limit, isRead, id, r, calls)
    ensures i == |turns| ==> !r.completed
    ensures i < |turns| ==>
      (r.completed <==>
        || turns[i].NoProposal?
        || (Worked(turns[i], i, allowed, limit) && turns[i].tool == "web_research")
        || (Worked(turns[i], i, allowed, limit) && turns[i].next == NoContinuation && (isRead(turns[i].tool) ==> turns[i].synthesis != None)))
    ensures r.completed && turns[i].NoProposal? ==> r.response == turns[i].response
    ensures r.completed && turns[i].Valid? && turns[i].tool == "web_research" ==>
      r.response == if turns[i].synthesis == None then None else turns[i].synthesis.value
    ensures r.completed && turns[i].Valid? && turns[i].tool != "web_research" ==>
      r.response == if isRead(turns[i].tool) then turns[i].synthesis.value else None
    ensures !r.completed ==> r.response == None
  {
    hide LeftCalls, CarriesRepaired;
  }

  /** A run that fails names the tool that was refused or failed, and whether a call was repaired; it names none if something threw or the turns ran out. */
  lemma FailuresTell(turns: seq<Turn>, i: nat, allowed: seq<ToolName>, limit: nat, isRead: ToolName -> bool, id: nat, r: AgentTaskResult, calls: seq<ToolCall>)
    requires StopsAt(turns, i, allowed, limit) && GoesAs(turns, i, allowed, limit, isRead, id, r, calls)
    ensures !r.completed ==> r.toolStatus == ToolNone || r.toolStatus == ToolRejected
    ensures !r.completed ==> (r.tool == None <==> r.toolStatus == ToolNone)
    ensures !r.completed && r.toolStatus == ToolRejected ==>
      && i < |turns| && (turns[i].RepairDeadline? || turns[i].Invalid? || turns[i].Valid?) && r.tool == Some(turns[i].tool)
      && (turns[i].Invalid? ==> turns[i].next == NoContinuation)
      && (turns[i].Valid? && turns[i].tool in allowed && i < limit ==>
        turns[i].behaviour == Errors(true) || (turns[i].behaviour == Errors(false) && turns[i].next == NoContinuation))
    ensures !r.completed && r.toolStatus == ToolNone && i < |turns| ==>
      || turns[i].ModelThrows?
      || (turns[i].Invalid? && turns[i].next == Throws)
      || (turns[i].Valid? && turns[i].tool in allowed && i < limit && turns[i].behaviour != Errors(true)
          && (turns[i].next == Throws || turns[i].behaviour == SucceedsUnrecorded || turns[i].synthesis == None))
    ensures r.completed || r.toolStatus == ToolRejected ==>
      (r.repaired <==> exists k :: 0 <= k <= i && k < |turns| && (turns[k].Invalid? || turns[k].Valid?) && turns[k].repaired)
  {
    hide LeftCalls;
    assert forall k :: 0 <= k < |turns| ==> (IsRepaired(turns[k]) <==> (turns[k].Invalid? || turns[k].Valid?) && turns[k].repaired);
  }

  /** Every recorded call says what became of its turn. */
  lemma CallsTell(turns: seq<Turn>, i: nat, allowed: seq<ToolName>, limit: nat, isRead: ToolName -> bool, id: nat, r: AgentTaskResult, calls: seq<ToolCall>, k: nat)
    requires StopsAt(turns, i, allowed, limit) && GoesAs(turns, i, allowed, limit, isRead, id, r, calls) && k < |calls|
    ensures k <= i && k < |turns| && |calls| <= i + 1 && calls[k].runId == id
    ensures (turns[k].Valid? || turns[k].Invalid? || turns[k].RepairDeadline?) && calls[k].tool == turns[k].tool
    ensures calls[k].status == Accepted <==> Worked(turns[k], k, allowed, limit)
    ensures calls[k].status == CallFailed <==> turns[k].Valid? && turns[k].tool in allowed && k < limit && turns[k].behaviour.Errors?
    ensures k < i ==> calls[k].status != Rejected || turns[k].Invalid?
    ensures k < |calls| - 1 ==> !(calls[k].tool == "web_research" && calls[k].status == Accepted)
  {
    hide EndsAs, CarriesRepaired;
    assert k < i ==> Recorded(turns[k], k, allowed, limit, id) == [calls[k]] && Continues(turns[k], k, allowed, limit);
    assert k >= i ==> calls[k] == calls[i..][k - i];
  }

  /** A model that never stops calling is cut off after exactly as many executed calls as the budget has; the next one is refused and fails the run. */
  lemma BudgetIsExact(turns: seq<Turn>, i: nat, allowed: seq<ToolName>, limit: nat, isRead: ToolName -> bool, id: nat, r: AgentTaskResult, calls: seq<ToolCall>)
    requires |turns| > limit && StopsAt(turns, i, allowed, limit) && GoesAs(turns, i, allowed, limit, isRead, id, r, calls)
    requires forall k :: 0 <= k < |turns| ==>
      turns[k].Valid? && turns[k].tool in allowed && turns[k].tool != "web_research" && turns[k].behaviour.Succeeds? && turns[k].next == Continued
    ensures i == limit && |calls| == limit + 1 && !r.completed && r.toolStatus == ToolRejected
    ensures forall k :: 0 <= k < limit ==> calls[k].status == Accepted
    ensures calls[limit].status == Rejected
  {
    assert i < limit ==> Continues(turns[i], i, allowed, limit);
    assert i > limit ==> Continues(turns[limit], limit, allowed, limit);
    assert Recorded(turns[limit], limit, allowed, limit, id) == [ToolCall(id, turns[limit].tool, Rejected)];
    hide Continues, EndsAs, CarriesRepaired;
    forall k | 0 <= k < limit ensures calls[k].status == Accepted {
      assert Recorded(turns[k], k, allowed, limit, id) == [calls[k]];
    }
    assert calls[i..] == [calls[i]];
  }

  /** A rejected validation or a failed call does not end a run as long as the model continues: the run then answers with the model's next words. */
  lemma FailuresAreRecoverable(turns: seq<Turn>, allowed: seq<ToolName>, limit: nat, isRead: ToolName -> bool, id: nat, r: AgentTaskResult, calls: seq<ToolCall>)
    requires |turns| == 2 && turns[1].NoProposal?
    requires turns[0].Invalid? || (turns[0].Valid? && turns[0].tool in allowed && limit > 0 && turns[0].behaviour == Errors(false))
    requires turns[0].next == Continued && GoesAs(turns, 1, allowed, limit, isRead, id, r, calls)
    ensures StopsAt(turns, 1, allowed, limit) && r.completed && r.response == turns[1].response && |calls| == 1 && calls[0].status != Accepted
    ensures r.repaired == turns[0].repaired
  {
    assert Recorded(turns[0], 0, allowed, limit, id) == [calls[0]];
    assert exists k :: 0 <= k <= 1 && k < |turns| && IsRepaired(turns[k]) <==> IsRepaired(turns[0]);
  }
}
