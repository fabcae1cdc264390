/** The owner command: a first run, and when it only refused, a run on trusted context and a delegation. */
module OwnerHandoff {
  import opened Wrappers
  import opened AgentRun

  const DELEGATE: ToolName := "delegate_development_task"
  const TRUSTED_CONTEXT_HANDOFF_SIGNAL := "TRUSTED_CONTEXT_HANDOFF_REQUIRED"

  datatype Trigger = OmniDevNoTool | ExplicitSignal | RestrictionRefusal | ActionRefusal

  // The readings of the owner's and the model's words are arbitrary, and so is the clean-up of a response before it is read.
  datatype Readings = Readings(
    cleaned: string -> string,
    startedAction: Option<string> -> bool, requestsDelegation: Option<string> -> bool,
    restrictionRefusal: string -> bool, actionRefusal: string -> bool)

  function TrustedContextHandoffTrigger(w: Readings, r: AgentTaskResult, ownerCommand: Option<string>): Option<Trigger> {
    if !r.completed || !r.toolStatus.ToolNone? || !w.startedAction(ownerCommand) then None
    else if w.requestsDelegation(ownerCommand) then Some(OmniDevNoTool)
    else
      var response := if r.response.Some? then w.cleaned(r.response.value) else "";
      if response == TRUSTED_CONTEXT_HANDOFF_SIGNAL then Some(ExplicitSignal)
      else if w.restrictionRefusal(response) then Some(RestrictionRefusal)
      else if w.actionRefusal(response) then Some(ActionRefusal)
      else None
  }

  /** The run answered without a tool although the owner clearly asked for an action: for the development agent, or with a refusal. */
  predicate Evades(w: Readings, r: AgentTaskResult, ownerCommand: Option<string>) {
    && r.completed && r.toolStatus == ToolNone && w.startedAction(ownerCommand)
    && (w.requestsDelegation(ownerCommand) || Declines(w, if r.response.Some? then w.cleaned(r.response.value) else ""))
  }

  predicate Declines(w: Readings, response: string) {
    response == "TRUSTED_CONTEXT_HANDOFF_REQUIRED" || w.restrictionRefusal(response) || w.actionRefusal(response)
  }

  lemma TriggerIff(w: Readings, r: AgentTaskResult, ownerCommand: Option<string>)
    ensures TrustedContextHandoffTrigger(w, r, ownerCommand).Some? <==> Evades(w, r, ownerCommand)
  {}

  /** How one of the runs goes: whether the burst limit is hit, and what the model and the tools do. */
  datatype Script = Script(tooManyRuns: bool, turns: seq<Turn>)

  /** What a run on this request returns: a failure at the burst limit, and otherwise what its last turn makes of it. */
  ghost predicate Returns(policy: Policy, request: Request, script: Script, limit: nat, r: AgentTaskResult) {
    if script.tooManyRuns then Broke(r)
    else forall i: nat :: StopsAt(script.turns, i, AllowedTools(policy, request), limit) ==>
      if i < |script.turns| then EndsAs(script.turns[i], i, AllowedTools(policy, request), limit, policy.isRead, r) else Broke(r)
  }

  /** One of the runs, and what the command needs to know of it. */
  method RunRequest(store: RunStore, policy: Policy, request: Request, script: Script, maxToolCallsPerRun: nat)
    returns (r: AgentTaskResult, ghost newExecutions: seq<Execution>)
    requires store.Valid()
    modifies store
    ensures store.Valid() && store.executions == old(store.executions) + newExecutions
    ensures Returns(policy, request, script, maxToolCallsPerRun, r)
    ensures |newExecutions| <= maxToolCallsPerRun
    ensures script.tooManyRuns ==> !r.completed && newExecutions == []
    ensures forall i :: 0 <= i < |newExecutions| ==> Some(newExecutions[i].runId) == r.runId && newExecutions[i].tool in AllowedTools(policy, request)
    ensures r.completed && r.toolStatus.ToolNone? ==> newExecutions == []
    ensures old(store.runs) <= store.runs && |store.runs| <= |old(store.runs)| + 1
    ensures forall i :: |old(store.runs)| <= i < |store.runs| ==> !store.runs[i].Running?
  {
    hide Ended, AllowedTools, StopsAt, EndsAs, LeftCalls, CarriesRepaired;
    ghost var calls;
    r, calls, newExecutions := RunAgentTask(store, policy, request, script.tooManyRuns, script.turns, maxToolCallsPerRun);
    EndedTells(|old(store.runs)|, AllowedTools(policy, request), maxToolCallsPerRun, calls, newExecutions, r);
  }

  /**
   The initial run, the trusted resume and the delegation fallback.  Whatever the model does, at most
   one of the runs executes any tool, and it is the run whose result is returned.  A second run is made
   exactly when the first one evaded, and a third exactly when the second one did not act either and the
   owner asked for the development agent.
   */
  method RunOwnerTaskWithTrustedContextHandoff(store: RunStore, policy: Policy, w: Readings, request: Request, maxToolCallsPerRun: nat,
    first: Script, second: Script, third: Script)
    returns (r: AgentTaskResult, ghost newExecutions: seq<Execution>, ghost results: seq<AgentTaskResult>)
    requires store.Valid()
    modifies store
    ensures store.Valid() && store.executions == old(store.executions) + newExecutions
    ensures forall i :: 0 <= i < |newExecutions| ==> Some(newExecutions[i].runId) == r.runId
    ensures |newExecutions| <= maxToolCallsPerRun
    ensures |old(store.runs)| <= |store.runs| <= |old(store.runs)| + 3
    ensures old(store.runs) <= store.runs && forall i :: |old(store.runs)| <= i < |store.runs| ==> !store.runs[i].Running?
    ensures 1 <= |results| <= 3 && r == results[|results| - 1]
    ensures |results| >= 2 <==> Evades(w, results[0], request.ownerCommand)
    ensures |results| == 3 <==> |results| >= 2 && results[1].completed && results[1].toolStatus == ToolNone && w.requestsDelegation(request.ownerCommand)
    ensures first.tooManyRuns ==> |results| == 1 && !r.completed && newExecutions == []
    ensures Returns(policy, request, first, maxToolCallsPerRun, results[0])
    ensures |results| >= 2 ==> Returns(policy, request.(external := false), second, maxToolCallsPerRun, results[1])
    ensures |results| == 3 ==> Returns(policy, request.(external := false, allowedTools := Some(["delegate_development_task"])), third, maxToolCallsPerRun, results[2])
    ensures |results| == 3 ==> forall i :: 0 <= i < |newExecutions| ==> newExecutions[i].tool == "delegate_development_task"
  {
    hide AllowedTools, TrustedContextHandoffTrigger, Evades, Returns;
    r, newExecutions := RunRequest(store, policy, request, first, maxToolCallsPerRun);
    results := [r];
    var trigger := TrustedContextHandoffTrigger(w, r, request.ownerCommand);
    TriggerIff(w, r, request.ownerCommand);
    if trigger.None? {
      return;
    }
    OnlyAfterNoTool(w, r, request.ownerCommand);
    var trusted := request.(external := false);
    r, newExecutions := RunRequest(store, policy, trusted, second, maxToolCallsPerRun);
    results := results + [r];
    if !r.completed || !r.toolStatus.ToolNone? || !w.requestsDelegation(request.ownerCommand) {
      return;
    }
    var delegation := trusted.(allowedTools := Some([DELEGATE]));
    r, newExecutions := RunRequest(store, policy, delegation, third, maxToolCallsPerRun);
    results := results + [r];
    DelegationAllows(policy, delegation);
  }

  lemma EndedTells(id: nat, allowed: seq<ToolName>, limit: nat, calls: seq<ToolCall>, executions: seq<Execution>, r: AgentTaskResult)
    requires Ended(id, allowed, limit, calls, executions, r)
    ensures |executions| <= limit && forall i :: 0 <= i < |executions| ==> executions[i].runId == id && executions[i].tool in allowed
    ensures r.completed && r.toolStatus.ToolNone? ==> executions == []
  {
    CompletedWithoutToolExecutedNone(id, allowed, limit, calls, executions, r);
  }

  lemma OnlyAfterNoTool(w: Readings, r: AgentTaskResult, ownerCommand: Option<string>)
    requires TrustedContextHandoffTrigger(w, r, ownerCommand).Some?
    ensures r.completed && r.toolStatus.ToolNone?
  {}

  lemma DelegationAllows(policy: Policy, request: Request)
    requires request.allowedTools == Some([DELEGATE]) && !request.external
    ensures forall t <- AllowedTools(policy, request) :: t == DELEGATE
  {}
}
