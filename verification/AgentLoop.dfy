/** The bounded loop of one agent run: model calls, repairs, actions, and the statuses it leaves behind. */
module AgentLoop {
  import Tasks = TaskStore

  const MAX_ITERATIONS: nat := 10
  const MAX_DECISION_RETRIES: nat := 2
  const MAX_TOOL_CALLS: nat := 10
  const MAX_PRELOADED: nat := 5

  datatype DecisionStatus = Continue | Delegate | Waiting | ApprovalRequired | NeedsHuman | Completed | Failed

  datatype Action = CallTool | CreateTask | RequestApproval | UpdateTask(to: Tasks.Status) | CompleteTask | FailTask | Other

  datatype Decision = Decision(status: DecisionStatus, actions: seq<Action>, hasResponse: bool)

  /** One answer of the model: an error, text that does not parse to a valid decision, or a decision. */
  datatype Reply = NoReply | Garbled | Decided(decision: Decision)

  datatype ToolOutcome = ToolDone | ToolError | NeedsApproval

  /**
   * Everything the run reads from outside. `llm` and `tool` are indexed by the number of earlier calls,
   * `cancelled` and `refused` (the tool name, risk and input checks) by the iteration. The task is `demanding`
   * when it asks for a role or for capabilities; `eligible` says, by the iteration and the action, whether some
   * agent meets what it asks for.
   */
  datatype Env = Env(llm: nat -> Reply, tool: nat -> ToolOutcome, cancelled: nat -> bool, refused: nat -> bool,
                     demanding: bool, eligible: (nat, nat) -> bool)

  datatype RunStatus = Running | AwaitingApproval | Succeeded | RunFailed | Cancelled

  datatype Result = Done | Parked | AgentFailed | ModelError | InvalidDecision | Rejected | ActionError
                  | TooManyToolCalls | TooManyIterations | TimedOut

  /** `loaded` is the task status in memory, read before the run starts; `task` is the row's. */
  datatype State = State(calls: nat, toolRuns: nat, toolCount: nat, loaded: Tasks.Status, task: Tasks.Status)

  datatype Final = Final(state: State, run: RunStatus, result: Result)

  /** UpdateTaskStatus with its error ignored. */
  function Moved(from: Tasks.Status, to: Tasks.Status): Tasks.Status {
    if Accepts(from, to) then to else from
  }

  predicate Accepts(from: Tasks.Status, to: Tasks.Status) {
    Tasks.ValidStatus(to) && Tasks.ValidTransition(from, to) && !Tasks.Legacy(to)
  }

  /** The runtime's own table: unlike the repository's it has no legacy rows and refuses the same status. */
  predicate LoadedAllows(from: Tasks.Status, to: Tasks.Status) {
    !Tasks.Legacy(from) && to in Tasks.Transitions(from)
  }

  // ----- the parts of one iteration

  function ToolCalls(actions: seq<Action>): nat {
    if actions == [] then 0
    else ToolCalls(actions[..|actions| - 1]) + if actions[|actions| - 1].CallTool? then 1 else 0
  }

  predicate Valid(env: Env, iteration: nat, st: State, d: Decision) {
    && st.toolCount + ToolCalls(d.actions) <= MAX_TOOL_CALLS
    && !env.refused(iteration)
    && (CompleteTask in d.actions ==> LoadedAllows(st.loaded, Tasks.Completed))
    && (FailTask in d.actions ==> LoadedAllows(st.loaded, Tasks.Failed))
    && ((d.status.NeedsHuman? || d.status.Waiting? || d.status.ApprovalRequired?) ==> d.hasResponse || d.actions != [])
  }

  /** The repair loop: asks again until an answer parses, at most `left` times. */
  function Repaired(env: Env, calls: nat, left: nat): (Reply, nat)
    decreases left
  {
    if left == 0 then (Garbled, calls)
    else
      var r := env.llm(calls);
      if r.Garbled? then Repaired(env, calls + 1, left - 1) else (r, calls + 1)
  }

  /** No agent can be found for a subtask, and the task does not accept just any. */
  predicate NoAgent(env: Env, iteration: nat, k: nat) { env.demanding && !env.eligible(iteration, k) }

  /** What one action makes of state and status when it does not end the list. */
  function Effect(st: State, status: DecisionStatus, action: Action): (State, DecisionStatus) {
    match action
    case CallTool => (st.(toolRuns := st.toolRuns + 1), status)
    case RequestApproval => (st, ApprovalRequired)
    case UpdateTask(to) =>
      if LoadedAllows(st.loaded, to) && Accepts(st.task, to) then (st.(loaded := to, task := to), status) else (st, status)
    case CompleteTask =>
      if LoadedAllows(st.loaded, Tasks.Completed) && Accepts(st.task, Tasks.Completed)
      then (st.(loaded := Tasks.Completed, task := Tasks.Completed), Completed) else (st, status)
    case FailTask =>
      if LoadedAllows(st.loaded, Tasks.Failed) && Accepts(st.task, Tasks.Failed)
      then (st.(loaded := Tasks.Failed, task := Tasks.Failed), Failed) else (st, status)
    case _ => (st, status)
  }

  /** The list of actions ends with this one: a tool that waits for approval, or no agent for a subtask. */
  predicate Stops(env: Env, iteration: nat, st: State, action: Action, k: nat) {
    (action.CallTool? && env.tool(st.toolRuns).NeedsApproval?) || (action.CreateTask? && NoAgent(env, iteration, k))
  }

  /** What the actions from `k` on do; the status may be rewritten, and an error ends the list early. */
  datatype Acted = Acted(state: State, status: DecisionStatus, failed: bool)

  function Act(env: Env, iteration: nat, st: State, status: DecisionStatus, actions: seq<Action>, k: nat): Acted
    requires k <= |actions|
    decreases |actions| - k
  {
    if k == |actions| then Acted(st, status, false)
    else
      var (next, s) := Effect(st, status, actions[k]);
      if Stops(env, iteration, st, actions[k], k) then Acted(next, if actions[k].CallTool? then ApprovalRequired else s, true)
      else Act(env, iteration, next, s, actions, k + 1)
  }

  /** How an iteration ends: with the end of the run, or in a state for the next one. */
  datatype Round = Ended(final: Final) | Next(state: State)

  function AfterActions(a: Acted, newCalls: nat): Round {
    if a.failed then
      if a.status.ApprovalRequired? || a.status.Waiting?
      then Ended(Final(a.state.(task := Moved(a.state.task, Tasks.ApprovalRequired)), AwaitingApproval, Parked))
      else Ended(Final(a.state, Running, ActionError))
    else
      var st := a.state.(toolCount := a.state.toolCount + newCalls);
      match a.status
      case Completed => Ended(Final(st.(task := Moved(st.task, Tasks.Completed)), Succeeded, Done))
      case Failed => Ended(Final(st.(task := Moved(st.task, Tasks.Failed)), RunFailed, AgentFailed))
      case NeedsHuman | Waiting | ApprovalRequired =>
        Ended(Final(st.(task := Moved(st.task, Tasks.Waiting)), AwaitingApproval, Parked))
      case Continue | Delegate =>
        if st.toolCount > MAX_TOOL_CALLS then Ended(Final(st, RunFailed, TooManyToolCalls)) else Next(st)
  }

  function FailedWith(st: State, r: Result): Round {
    Ended(Final(st.(task := Moved(st.task, Tasks.Failed)), RunFailed, r))
  }

  function Iterate(env: Env, iteration: nat, st: State): Round {
    if env.cancelled(iteration) then Ended(Final(st, Cancelled, TimedOut))
    else
      var first := env.llm(st.calls);
      var asked := st.(calls := st.calls + 1);
      if first.NoReply? then FailedWith(asked, ModelError)
      else
        var (r, calls) := if first.Garbled? then Repaired(env, asked.calls, MAX_DECISION_RETRIES) else (first, asked.calls);
        var ready := asked.(calls := calls);
        if !r.Decided? then FailedWith(ready, InvalidDecision)
        else if !Valid(env, iteration, ready, r.decision) then FailedWith(ready, Rejected)
        else AfterActions(Act(env, iteration, ready, r.decision.status, r.decision.actions, 0), ToolCalls(r.decision.actions))
  }

  function Iterations(env: Env, iteration: nat, st: State): Final
    decreases MAX_ITERATIONS + 1 - iteration
  {
    if iteration > MAX_ITERATIONS then Final(st.(task := Moved(st.task, Tasks.Failed)), RunFailed, TooManyIterations)
    else match Iterate(env, iteration, st)
      case Ended(f) => f
      case Next(n) => Iterations(env, iteration + 1, n)
  }

  /** The state in which the loop starts: the row is moved to running, the copy in memory is not. */
  function Start(task: Tasks.Status, preloaded: nat): State {
    State(0, 0, preloaded, task, Moved(task, Tasks.Running))
  }

  function Executed(env: Env, task: Tasks.Status, preloaded: nat): Final { Iterations(env, 1, Start(task, preloaded)) }

  // ----- the code

  method CountToolCalls(d: Decision) returns (c: nat)
    ensures c == ToolCalls(d.actions)
  {
    c := 0;
    for k := 0 to |d.actions|
      invariant c == ToolCalls(d.actions[..k])
    {
      assert d.actions[..k + 1][..k] == d.actions[..k];
      if d.actions[k].CallTool? { c := c + 1; }
    }
    assert d.actions[..|d.actions|] == d.actions;
  }

  method RetryDecision(env: Env, calls0: nat) returns (r: Reply, calls: nat)
    ensures (r, calls) == Repaired(env, calls0, MAX_DECISION_RETRIES)
  {
    r, calls := Garbled, calls0;
    for retry := 0 to MAX_DECISION_RETRIES
      invariant r.Garbled?
      invariant Repaired(env, calls, MAX_DECISION_RETRIES - retry) == Repaired(env, calls0, MAX_DECISION_RETRIES)
    {
      r := env.llm(calls);
      calls := calls + 1;
      if !r.Garbled? { return; }
    }
  }

  method ValidateDecision(env: Env, iteration: nat, st: State, d: Decision) returns (ok: bool)
    ensures ok <==> Valid(env, iteration, st, d)
  {
    var newCalls := CountToolCalls(d);
    if st.toolCount + newCalls > MAX_TOOL_CALLS { return false; }
    if env.refused(iteration) { return false; }
    for k := 0 to |d.actions|
      invariant forall i :: 0 <= i < k && d.actions[i].CompleteTask? ==> LoadedAllows(st.loaded, Tasks.Completed)
      invariant forall i :: 0 <= i < k && d.actions[i].FailTask? ==> LoadedAllows(st.loaded, Tasks.Failed)
    {
      if d.actions[k].CompleteTask? && !LoadedAllows(st.loaded, Tasks.Completed) { return false; }
      if d.actions[k].FailTask? && !LoadedAllows(st.loaded, Tasks.Failed) { return false; }
    }
    ok := !((d.status.NeedsHuman? || d.status.Waiting? || d.status.ApprovalRequired?) && !d.hasResponse && |d.actions| == 0);
  }

  method ExecuteDecisionActions(env: Env, iteration: nat, st0: State, d: Decision) returns (a: Acted)
    ensures a == Act(env, iteration, st0, d.status, d.actions, 0)
  {
    var st, status := st0, d.status;
    for k := 0 to |d.actions|
      invariant Act(env, iteration, st, status, d.actions, k) == Act(env, iteration, st0, d.status, d.actions, 0)
    {
      match d.actions[k] {
        case CallTool =>
          var o := env.tool(st.toolRuns);
          st := st.(toolRuns := st.toolRuns + 1);
          if o.NeedsApproval? { return Acted(st, ApprovalRequired, true); }
        case CreateTask =>
          if env.demanding && !env.eligible(iteration, k) { return Acted(st, status, true); }
        case RequestApproval => status := ApprovalRequired;
        case UpdateTask(to) =>
          if LoadedAllows(st.loaded, to) && Accepts(st.task, to) { st := st.(loaded := to, task := to); }
        case CompleteTask =>
          if LoadedAllows(st.loaded, Tasks.Completed) && Accepts(st.task, Tasks.Completed) {
            st, status := st.(loaded := Tasks.Completed, task := Tasks.Completed), Completed;
          }
        case FailTask =>
          if LoadedAllows(st.loaded, Tasks.Failed) && Accepts(st.task, Tasks.Failed) {
            st, status := st.(loaded := Tasks.Failed, task := Tasks.Failed), Failed;
          }
        case Other =>
      }
    }
    a := Acted(st, status, false);
  }

  /** The body of the loop. */
  method RunIteration(env: Env, iteration: nat, st0: State) returns (round: Round)
    ensures round == Iterate(env, iteration, st0)
  {
    hide Act, Moved, Valid, Repaired, ToolCalls;
    var st := st0;
    if env.cancelled(iteration) { return Ended(Final(st, Cancelled, TimedOut)); }
    var r := env.llm(st.calls);
    st := st.(calls := st.calls + 1);
    if r.NoReply? { return Ended(Final(st.(task := Moved(st.task, Tasks.Failed)), RunFailed, ModelError)); }
    if r.Garbled? {
      var calls;
      r, calls := RetryDecision(env, st.calls);
      st := st.(calls := calls);
      if !r.Decided? { return Ended(Final(st.(task := Moved(st.task, Tasks.Failed)), RunFailed, InvalidDecision)); }
    }
    var ok := ValidateDecision(env, iteration, st, r.decision);
    if !ok { return Ended(Final(st.(task := Moved(st.task, Tasks.Failed)), RunFailed, Rejected)); }
    var a := ExecuteDecisionActions(env, iteration, st, r.decision);
    var newCalls := CountToolCalls(r.decision);
    round := CloseIteration(a, newCalls);
  }

  /** Parks or ends the run, or counts the tool calls and lets it continue. */
  method CloseIteration(a: Acted, newCalls: nat) returns (round: Round)
    ensures round == AfterActions(a, newCalls)
  {
    hide Moved;
    if a.failed {
      if a.status.ApprovalRequired? || a.status.Waiting? {
        return Ended(Final(a.state.(task := Moved(a.state.task, Tasks.ApprovalRequired)), AwaitingApproval, Parked));
      }
      return Ended(Final(a.state, Running, ActionError));
    }
    var st := a.state.(toolCount := a.state.toolCount + newCalls);
    match a.status {
      case Completed => return Ended(Final(st.(task := Moved(st.task, Tasks.Completed)), Succeeded, Done));
      case Failed => return Ended(Final(st.(task := Moved(st.task, Tasks.Failed)), RunFailed, AgentFailed));
      case NeedsHuman | Waiting | ApprovalRequired =>
        return Ended(Final(st.(task := Moved(st.task, Tasks.Waiting)), AwaitingApproval, Parked));
      case Continue | Delegate =>
        if st.toolCount > MAX_TOOL_CALLS { return Ended(Final(st, RunFailed, TooManyToolCalls)); }
    }
    round := Next(st);
  }

  method ExecuteTask(env: Env, task: Tasks.Status, preloaded: nat) returns (f: Final)
    ensures f == Executed(env, task, preloaded)
  {
    hide Iterate, Moved;
    var st := State(0, 0, preloaded, task, Moved(task, Tasks.Running));
    for iteration := 1 to MAX_ITERATIONS + 1
      invariant Iterations(env, iteration, st) == Executed(env, task, preloaded)
    {
      var round := RunIteration(env, iteration, st);
      if round.Ended? { return round.final; }
      st := round.state;
    }
    f := Final(st.(task := Moved(st.task, Tasks.Failed)), RunFailed, TooManyIterations);
  }

  // ----- budgets

  lemma {:induction false} RepairedBounds(env: Env, calls: nat, left: nat)
    ensures calls <= Repaired(env, calls, left).1 <= calls + left
    decreases left
  {
    if left > 0 { RepairedBounds(env, calls + 1, left - 1); }
  }

  lemma {:induction false} ToolCallsSplit(actions: seq<Action>, k: nat)
    requires k < |actions|
    ensures ToolCalls(actions[..k + 1]) == ToolCalls(actions[..k]) + if actions[k].CallTool? then 1 else 0
  {
    assert actions[..k + 1][..k] == actions[..k];
  }

  lemma {:induction false} ActBounds(env: Env, iteration: nat, st: State, status: DecisionStatus, actions: seq<Action>, k: nat)
    requires k <= |actions|
    ensures var a := Act(env, iteration, st, status, actions, k);
      && a.state.calls == st.calls && a.state.toolCount == st.toolCount
      && st.toolRuns <= a.state.toolRuns <= st.toolRuns + ToolCalls(actions) - ToolCalls(actions[..k])
    decreases |actions| - k
  {
    if k == |actions| {
      assert actions[..k] == actions;
    } else {
      hide ToolCalls, Stops, LoadedAllows, Accepts;
      ToolCallsSplit(actions, k);
      ToolCallsMonotone(actions, k + 1);
      var (next, s) := Effect(st, status, actions[k]);
      ActBounds(env, iteration, next, s, actions, k + 1);
    }
  }

  lemma {:induction false} ToolCallsMonotone(actions: seq<Action>, k: nat)
    requires k <= |actions|
    ensures ToolCalls(actions[..k]) <= ToolCalls(actions)
    decreases |actions| - k
  {
    if k < |actions| {
      ToolCallsSplit(actions, k);
      ToolCallsMonotone(actions, k + 1);
    } else {
      assert actions[..k] == actions;
    }
  }

  /** Every tool run so far was counted, and the count never passes the limit. */
  predicate WithinBudget(st: State, preloaded: nat) {
    st.toolRuns + preloaded <= st.toolCount <= MAX_TOOL_CALLS
  }

  lemma IterateBounds(env: Env, iteration: nat, st: State, preloaded: nat)
    requires WithinBudget(st, preloaded)
    ensures match Iterate(env, iteration, st)
      case Ended(f) => f.state.calls <= st.calls + 3 && f.state.toolRuns + preloaded <= MAX_TOOL_CALLS
                       && f.result != TooManyToolCalls && f.result != TooManyIterations
      case Next(n) => n.calls <= st.calls + 3 && WithinBudget(n, preloaded)
  {
    hide Act, Moved, ToolCalls;
    RepairedBounds(env, st.calls + 1, MAX_DECISION_RETRIES);
    var first := env.llm(st.calls);
    if !env.cancelled(iteration) && !first.NoReply? {
      var asked := st.(calls := st.calls + 1);
      var (r, calls) := if first.Garbled? then Repaired(env, asked.calls, MAX_DECISION_RETRIES) else (first, asked.calls);
      var ready := asked.(calls := calls);
      if r.Decided? {
        ActBounds(env, iteration, ready, r.decision.status, r.decision.actions, 0);
      }
    }
  }

  lemma {:induction false} IterationsBounds(env: Env, iteration: nat, st: State, preloaded: nat)
    requires WithinBudget(st, preloaded) && 1 <= iteration <= MAX_ITERATIONS + 1
    ensures var f := Iterations(env, iteration, st);
      && f.state.calls <= st.calls + 3 * (MAX_ITERATIONS + 1 - iteration)
      && f.state.toolRuns + preloaded <= MAX_TOOL_CALLS && f.result != TooManyToolCalls
    decreases MAX_ITERATIONS + 1 - iteration
  {
    hide Iterate, Moved;
    if iteration <= MAX_ITERATIONS {
      IterateBounds(env, iteration, st, preloaded);
      match Iterate(env, iteration, st)
      case Ended(f) =>
      case Next(n) => IterationsBounds(env, iteration + 1, n, preloaded);
    }
  }

  /**
   * One run calls the model at most MaxIterations * (1 + MaxDecisionRetries) times and runs at most
   * MaxToolCalls minus the preloaded results tools, so its check for too many tool calls never fires.
   */
  lemma RunStaysWithinBudget(env: Env, task: Tasks.Status, preloaded: nat)
    requires preloaded <= MAX_PRELOADED
    ensures var f := Executed(env, task, preloaded);
      && f.state.calls <= 10 * (1 + 2)
      && f.state.toolRuns <= 10 - preloaded
      && f.result != TooManyToolCalls
  {
    hide Iterations, Moved;
    IterationsBounds(env, 1, Start(task, preloaded), preloaded);
  }

  /** A model that needs both repairs every time and never finishes. */
  function Stubborn(): Env {
    Env(n => if n % 3 == 2 then Decided(Decision(Continue, [], true)) else Garbled,
        n => ToolDone, n => false, n => false, false, (n: nat, k: nat) => true)
  }

  lemma {:induction false} StubbornIterates(iteration: nat, st: State)
    requires st.calls % 3 == 0 && st.toolCount <= MAX_TOOL_CALLS && 1 <= iteration <= MAX_ITERATIONS + 1
    ensures Iterations(Stubborn(), iteration, st).state.calls == st.calls + 3 * (MAX_ITERATIONS + 1 - iteration)
    decreases MAX_ITERATIONS + 1 - iteration
  {
    if iteration <= MAX_ITERATIONS {
      var env := Stubborn();
      assert Repaired(env, st.calls + 1, 2) == Repaired(env, st.calls + 2, 1);
      assert Repaired(env, st.calls + 2, 1) == (Decided(Decision(Continue, [], true)), st.calls + 3);
      assert Iterate(env, iteration, st) == Next(st.(calls := st.calls + 3));
      StubbornIterates(iteration + 1, st.(calls := st.calls + 3));
    }
  }

  /** The bound on model calls is attained. */
  lemma CallBoundIsTight(task: Tasks.Status, preloaded: nat)
    requires preloaded <= MAX_PRELOADED
    ensures Executed(Stubborn(), task, preloaded).state.calls == 10 * (1 + 2)
  {
    StubbornIterates(1, Start(task, preloaded));
  }

  // ----- the statuses a run leaves behind

  lemma {:induction false} IterationsRunStatus(env: Env, iteration: nat, st: State)
    requires 1 <= iteration <= MAX_ITERATIONS + 1
    ensures var f := Iterations(env, iteration, st);
      && (f.run == Running <==> f.result == ActionError)
      && (f.run == Succeeded <==> f.result == Done) && (f.run == AwaitingApproval <==> f.result == Parked)
      && (f.run == Cancelled <==> f.result == TimedOut)
      && (f.run == RunFailed <==>
            f.result in {AgentFailed, ModelError, InvalidDecision, Rejected, TooManyToolCalls, TooManyIterations})
    decreases MAX_ITERATIONS + 1 - iteration
  {
    hide Act, Moved, Valid, Repaired, ToolCalls;
    if iteration <= MAX_ITERATIONS {
      match Iterate(env, iteration, st)
      case Ended(f) =>
      case Next(n) => IterationsRunStatus(env, iteration + 1, n);
    }
  }

  /** Where an agent can always be found, the actions only fail to park the run. */
  lemma {:induction false} ActOnlyParks(env: Env, iteration: nat, st: State, status: DecisionStatus, actions: seq<Action>, k: nat)
    requires k <= |actions| && forall j :: !NoAgent(env, iteration, j)
    ensures var a := Act(env, iteration, st, status, actions, k);
      a.failed ==> a.status.ApprovalRequired?
    decreases |actions| - k
  {
    if k < |actions| {
      hide Effect;
      var (next, s) := Effect(st, status, actions[k]);
      ActOnlyParks(env, iteration, next, s, actions, k + 1);
    }
  }

  lemma {:induction false} IterationsClose(env: Env, iteration: nat, st: State)
    requires 1 <= iteration <= MAX_ITERATIONS + 1
    requires forall i, k :: 1 <= i <= MAX_ITERATIONS ==> !NoAgent(env, i, k)
    ensures Iterations(env, iteration, st).run != Running
    decreases MAX_ITERATIONS + 1 - iteration
  {
    if iteration <= MAX_ITERATIONS {
      IterateCloses(env, iteration, st);
      match Iterate(env, iteration, st)
      case Ended(f) =>
      case Next(n) => IterationsClose(env, iteration + 1, n);
    }
  }

  lemma IterateCloses(env: Env, iteration: nat, st: State)
    requires forall k :: !NoAgent(env, iteration, k)
    ensures Iterate(env, iteration, st).Ended? ==> Iterate(env, iteration, st).final.run != Running
  {
    hide Act, Moved, Valid, Repaired, ToolCalls, NoAgent;
    var first := env.llm(st.calls);
    if !env.cancelled(iteration) && !first.NoReply? {
      var asked := st.(calls := st.calls + 1);
      var (r, calls) := if first.Garbled? then Repaired(env, asked.calls, MAX_DECISION_RETRIES) else (first, asked.calls);
      if r.Decided? {
        ActOnlyParks(env, iteration, asked.(calls := calls), r.decision.status, r.decision.actions, 0);
      }
    }
  }

  /** A decision that asks for a subtask behind `k` actions without effect. */
  function Asking(k: nat): (actions: seq<Action>)
    ensures |actions| == k + 1 && actions[k] == CreateTask && forall j :: 0 <= j < k ==> actions[j] == Other
  {
    seq(k, _ => Other) + [CreateTask]
  }

  /** A model that idles until iteration `i` and then asks for a subtask. */
  function AsksLate(i: nat, k: nat): nat -> Reply {
    n => Decided(Decision(Continue, if n + 1 == i then Asking(k) else [], true))
  }

  lemma {:induction false} NoCallsCounted(actions: seq<Action>)
    requires CallTool !in actions
    ensures ToolCalls(actions) == 0
    decreases |actions|
  {
    if actions != [] { NoCallsCounted(actions[..|actions| - 1]); }
  }

  lemma {:induction false} AskingFails(env: Env, iteration: nat, st: State, k: nat, j: nat)
    requires j <= k && NoAgent(env, iteration, k)
    ensures Act(env, iteration, st, Continue, Asking(k), j) == Acted(st, Continue, true)
    decreases k - j
  {
    if j < k { AskingFails(env, iteration, st, k, j + 1); }
  }

  lemma {:induction false} LateAskLeavesRunning(env: Env, i: nat, k: nat, iteration: nat, st: State)
    requires env.llm == AsksLate(i, k) && env.tool == (n => ToolDone) && env.cancelled == (n => false) && env.refused == (n => false)
    requires 1 <= iteration <= i <= MAX_ITERATIONS && NoAgent(env, i, k)
    requires st.calls == iteration - 1 && st.toolCount <= MAX_TOOL_CALLS
    ensures Iterations(env, iteration, st).run == Running
    decreases i - iteration
  {
    hide NoAgent, Act, Valid, AfterActions, Repaired;
    LateAskRound(env, i, k, iteration, st);
    if iteration < i { LateAskLeavesRunning(env, i, k, iteration + 1, st.(calls := st.calls + 1)); }
  }

  lemma LateAskRound(env: Env, i: nat, k: nat, iteration: nat, st: State)
    requires env.llm == AsksLate(i, k) && env.tool == (n => ToolDone) && env.cancelled == (n => false) && env.refused == (n => false)
    requires 1 <= iteration <= i && NoAgent(env, i, k)
    requires st.calls == iteration - 1 && st.toolCount <= MAX_TOOL_CALLS
    ensures var asked := st.(calls := st.calls + 1);
      Iterate(env, iteration, st) == if iteration == i then Ended(Final(asked, Running, ActionError)) else Next(asked)
  {
    hide NoAgent, ToolCalls, Repaired;
    var asked := st.(calls := st.calls + 1);
    var actions := if iteration == i then Asking(k) else [];
    assert env.llm(st.calls) == Decided(Decision(Continue, actions, true));
    NoCallsCounted(actions);
    assert Valid(env, iteration, asked, Decision(Continue, actions, true));
    if iteration == i {
      AskingFails(env, i, asked, k, 0);
    } else {
      assert Act(env, iteration, asked, Continue, actions, 0) == Acted(asked, Continue, false);
    }
  }

  /**
   * The run row is closed (or parked) whatever model, tools and cancellation do, exactly when the task demands
   * nothing of its agents or an agent that meets the demand is found for every action of every iteration.
   * Otherwise some model leaves the row in running: the error of the action is returned with the row untouched.
   */
  lemma RunLeftRunningIff(task: Tasks.Status, preloaded: nat, demanding: bool, eligible: (nat, nat) -> bool)
    requires preloaded <= MAX_PRELOADED
    ensures
      (forall llm: nat -> Reply, tool: nat -> ToolOutcome, cancelled: nat -> bool, refused: nat -> bool ::
         Executed(Env(llm, tool, cancelled, refused, demanding, eligible), task, preloaded).run != Running)
      <==> (demanding ==> forall i: nat, k: nat :: 1 <= i <= MAX_ITERATIONS ==> eligible(i, k))
  {
    hide Iterations, Moved;
    var start := Start(task, preloaded);
    if demanding && exists i: nat, k: nat :: 1 <= i <= MAX_ITERATIONS && !eligible(i, k) {
      var i: nat, k: nat :| 1 <= i <= MAX_ITERATIONS && !eligible(i, k);
      var env := Env(AsksLate(i, k), n => ToolDone, n => false, n => false, demanding, eligible);
      LateAskLeavesRunning(env, i, k, 1, start);
      assert Executed(env, task, preloaded).run == Running;
    } else {
      forall llm: nat -> Reply, tool: nat -> ToolOutcome, cancelled: nat -> bool, refused: nat -> bool
        ensures Executed(Env(llm, tool, cancelled, refused, demanding, eligible), task, preloaded).run != Running
      {
        IterationsClose(Env(llm, tool, cancelled, refused, demanding, eligible), 1, start);
      }
    }
  }

  /** No decision asks for an explicit status change. */
  ghost predicate NoUpdates(env: Env) {
    forall n, a :: env.llm(n).Decided? && a in env.llm(n).decision.actions ==> !a.UpdateTask?
  }

  /** Without such changes a task loaded as pending or assigned never reaches completed or failed by an action. */
  lemma {:induction false} ActKeepsStatuses(env: Env, iteration: nat, st: State, status: DecisionStatus, actions: seq<Action>, k: nat)
    requires k <= |actions| && forall a :: a in actions ==> !a.UpdateTask?
    requires st.loaded.Pending? || st.loaded.Assigned?
    ensures var b := Act(env, iteration, st, status, actions, k);
      b.state.loaded == st.loaded && b.state.task == st.task
    decreases |actions| - k
  {
    if k < |actions| {
      assert actions[k] in actions;
      hide Stops;
      var (next, s) := Effect(st, status, actions[k]);
      ActKeepsStatuses(env, iteration, next, s, actions, k + 1);
    }
  }

  lemma {:induction false} RepairedIsReply(env: Env, calls: nat, left: nat)
    ensures Repaired(env, calls, left).0.Decided? ==> exists n :: Repaired(env, calls, left).0 == env.llm(n)
    decreases left
  {
    if left > 0 { RepairedIsReply(env, calls + 1, left - 1); }
  }

  /** What the end of a run makes of a task row that was `was` when the run had been started. */
  predicate RowFits(was: Tasks.Status, f: Final) {
    match f.result
    case Done => f.state.task == Moved(was, Tasks.Completed)
    case AgentFailed | ModelError | InvalidDecision | Rejected | TooManyIterations => f.state.task == Moved(was, Tasks.Failed)
    case Parked => f.state.task in {Moved(was, Tasks.Waiting), Moved(was, Tasks.ApprovalRequired)}
    case TimedOut | ActionError | TooManyToolCalls => f.state.task == was
  }

  lemma IterateKeepsStatuses(env: Env, iteration: nat, st: State)
    requires NoUpdates(env) && (st.loaded.Pending? || st.loaded.Assigned?)
    ensures match Iterate(env, iteration, st)
      case Next(n) => n.loaded == st.loaded && n.task == st.task
      case Ended(f) => RowFits(st.task, f)
  {
    hide Act, Moved, Valid, ToolCalls;
    RepairedIsReply(env, st.calls + 1, MAX_DECISION_RETRIES);
    var first := env.llm(st.calls);
    if !env.cancelled(iteration) && !first.NoReply? {
      var asked := st.(calls := st.calls + 1);
      var (r, calls) := if first.Garbled? then Repaired(env, asked.calls, MAX_DECISION_RETRIES) else (first, asked.calls);
      var ready := asked.(calls := calls);
      if r.Decided? {
        ActKeepsStatuses(env, iteration, ready, r.decision.status, r.decision.actions, 0);
      }
    }
  }

  lemma {:induction false} IterationsKeepStatuses(env: Env, iteration: nat, st: State)
    requires NoUpdates(env) && (st.loaded.Pending? || st.loaded.Assigned?) && 1 <= iteration <= MAX_ITERATIONS + 1
    ensures RowFits(st.task, Iterations(env, iteration, st))
    decreases MAX_ITERATIONS + 1 - iteration
  {
    hide Iterate, Moved;
    if iteration <= MAX_ITERATIONS {
      IterateKeepsStatuses(env, iteration, st);
      match Iterate(env, iteration, st)
      case Ended(f) =>
      case Next(n) => IterationsKeepStatuses(env, iteration + 1, n);
    }
  }

  /** How a run that ends so leaves the row of an assigned task. */
  lemma AssignedTaskEnds(env: Env, preloaded: nat)
    requires NoUpdates(env) && preloaded <= MAX_PRELOADED
    ensures var f := Executed(env, Tasks.Assigned, preloaded);
      match f.run
      case Succeeded => f.state.task == Tasks.Completed
      case AwaitingApproval => f.state.task in {Tasks.Waiting, Tasks.ApprovalRequired}
      case RunFailed => f.state.task == Tasks.Failed
      case Running | Cancelled => f.state.task == Tasks.Running
  {
    hide Iterations;
    IterationsKeepStatuses(env, 1, Start(Tasks.Assigned, preloaded));
    IterationsRunStatus(env, 1, Start(Tasks.Assigned, preloaded));
    RunStaysWithinBudget(env, Tasks.Assigned, preloaded);
  }

  /** An assigned task is completed by the run exactly when the run succeeds. */
  lemma AssignedTaskCompletesIff(env: Env, preloaded: nat)
    requires NoUpdates(env)
    ensures var f := Executed(env, Tasks.Assigned, preloaded);
      f.state.task == Tasks.Completed <==> f.run == Succeeded
  {
    hide Iterations;
    IterationsKeepStatuses(env, 1, Start(Tasks.Assigned, preloaded));
    IterationsRunStatus(env, 1, Start(Tasks.Assigned, preloaded));
  }

  /** A pending task (such as the scheduler's) stays pending whatever the run does, even when the run succeeds. */
  lemma PendingTaskStaysPending(env: Env, preloaded: nat)
    requires NoUpdates(env)
    ensures Executed(env, Tasks.Pending, preloaded).state.task == Tasks.Pending
  {
    hide Iterations;
    IterationsKeepStatuses(env, 1, Start(Tasks.Pending, preloaded));
  }

  // ----- which loaded statuses let a run complete its task

  /** Without update_task the statuses stay, or become completed or failed together with the decision's. */
  lemma {:induction false} ActEnds(env: Env, iteration: nat, st: State, status: DecisionStatus, actions: seq<Action>, k: nat)
    requires k <= |actions| && forall a :: a in actions ==> !a.UpdateTask?
    ensures var b := Act(env, iteration, st, status, actions, k);
      || (b.state.loaded == st.loaded && b.state.task == st.task && b.status in {status, ApprovalRequired})
      || (b.state.loaded == b.state.task == Tasks.Completed && b.status in {Completed, ApprovalRequired})
      || (b.state.loaded == b.state.task == Tasks.Failed && b.status in {Failed, ApprovalRequired})
    decreases |actions| - k
  {
    if k < |actions| {
      assert actions[k] in actions;
      hide Stops;
      var (next, s) := Effect(st, status, actions[k]);
      ActEnds(env, iteration, next, s, actions, k + 1);
    }
  }

  lemma IterateSucceeds(env: Env, iteration: nat, st: State)
    requires NoUpdates(env)
    ensures match Iterate(env, iteration, st)
      case Next(n) => n.loaded == st.loaded && n.task == st.task
      case Ended(f) => f.run == Succeeded ==> f.state.task in {Tasks.Completed, Moved(st.task, Tasks.Completed)}
  {
    hide Act, Valid, ToolCalls;
    RepairedIsReply(env, st.calls + 1, MAX_DECISION_RETRIES);
    var first := env.llm(st.calls);
    if !env.cancelled(iteration) && !first.NoReply? {
      var asked := st.(calls := st.calls + 1);
      var (r, calls) := if first.Garbled? then Repaired(env, asked.calls, MAX_DECISION_RETRIES) else (first, asked.calls);
      if r.Decided? {
        ActEnds(env, iteration, asked.(calls := calls), r.decision.status, r.decision.actions, 0);
      }
    }
  }

  lemma {:induction false} IterationsSucceed(env: Env, iteration: nat, st: State)
    requires NoUpdates(env) && 1 <= iteration <= MAX_ITERATIONS + 1
    ensures var f := Iterations(env, iteration, st);
      f.run == Succeeded ==> f.state.task in {Tasks.Completed, Moved(st.task, Tasks.Completed)}
    decreases MAX_ITERATIONS + 1 - iteration
  {
    hide Iterate, Moved;
    if iteration <= MAX_ITERATIONS {
      IterateSucceeds(env, iteration, st);
      match Iterate(env, iteration, st)
      case Ended(f) =>
      case Next(n) => IterationsSucceed(env, iteration + 1, n);
    }
  }

  /** A model that is done at once. */
  function DoneAtOnce(): Env {
    Env(n => Decided(Decision(Completed, [], true)), n => ToolDone, n => false, n => false, false, (n: nat, k: nat) => true)
  }

  /**
   * Every run that succeeds leaves its task completed, exactly for the statuses from which the row can still get
   * to completed; a task in any other status keeps it although the run succeeds. (The two legacy statuses are
   * unreachable, see TaskRuns.)
   */
  lemma SuccessCompletesTaskIff(task: Tasks.Status, preloaded: nat)
    requires preloaded <= MAX_PRELOADED
    ensures
      (forall env :: NoUpdates(env) && Executed(env, task, preloaded).run == Succeeded
         ==> Executed(env, task, preloaded).state.task == Tasks.Completed)
      <==> task in {Tasks.Assigned, Tasks.Running, Tasks.Waiting, Tasks.Blocked, Tasks.ApprovalRequired, Tasks.Completed,
                    Tasks.InProgress, Tasks.InReview}
  {
    hide Iterations, NoUpdates;
    var start := Start(task, preloaded);
    forall env | NoUpdates(env) && Executed(env, task, preloaded).run == Succeeded
      ensures Executed(env, task, preloaded).state.task in {Tasks.Completed, Moved(start.task, Tasks.Completed)}
    {
      IterationsSucceed(env, 1, start);
    }
    DoneAtOnceSucceeds(task, preloaded);
  }

  lemma DoneAtOnceSucceeds(task: Tasks.Status, preloaded: nat)
    requires preloaded <= MAX_PRELOADED
    ensures NoUpdates(DoneAtOnce())
    ensures var f := Executed(DoneAtOnce(), task, preloaded);
      f.run == Succeeded && f.state.task == Moved(Moved(task, Tasks.Running), Tasks.Completed)
  {
    hide Moved;
    var env, asked := DoneAtOnce(), Start(task, preloaded).(calls := 1);
    assert Act(env, 1, asked, Completed, [], 0) == Acted(asked, Completed, false);
  }

  // ----- explicit ends

  /** The first answer that parses, after at most two repairs. */
  function FirstDecision(env: Env): Reply {
    if env.llm(0).Garbled? then Repaired(env, 1, MAX_DECISION_RETRIES).0 else env.llm(0)
  }

  /** The first decision meets no refusal but, perhaps, that of its complete_task and fail_task actions. */
  predicate Unhindered(env: Env, preloaded: nat) {
    FirstDecision(env).Decided? && !env.cancelled(1) && !env.refused(1)
    && preloaded + ToolCalls(FirstDecision(env).decision.actions) <= MAX_TOOL_CALLS
  }

  predicate FirstIsRejected(env: Env, task: Tasks.Status, preloaded: nat) {
    var round := Iterate(env, 1, Start(task, preloaded));
    round.Ended? && round.final.result == Rejected
  }

  /**
   * Whether a first decision with a complete_task or fail_task action is rejected depends on the status that was
   * loaded before the row was moved to running: only running, waiting and approval_required let it pass.
   */
  lemma ExplicitEndIsRejectedIff(env: Env, task: Tasks.Status, preloaded: nat)
    requires Unhindered(env, preloaded)
    requires CompleteTask in FirstDecision(env).decision.actions || FailTask in FirstDecision(env).decision.actions
    ensures FirstIsRejected(env, task, preloaded) <==> task !in {Tasks.Running, Tasks.Waiting, Tasks.ApprovalRequired}
  {
    hide Act, ToolCalls, Repaired, Moved;
    FirstRound(env, task, preloaded);
  }

  /** What a first decision comes to whose only action ends the task: the end it asks for, or the rejection. */
  lemma ExplicitEndWorksIff(env: Env, task: Tasks.Status, preloaded: nat, complete: bool)
    requires Unhindered(env, preloaded)
    requires FirstDecision(env).decision.actions == [if complete then CompleteTask else FailTask]
    ensures var f := Executed(env, task, preloaded);
      if task in {Tasks.Running, Tasks.Waiting, Tasks.ApprovalRequired}
      then f.result == (if complete then Done else AgentFailed) && f.run == (if complete then Succeeded else RunFailed)
           && f.state.task == (if complete then Tasks.Completed else Tasks.Failed)
      else f.result == Rejected && f.run == RunFailed && f.state.task == Moved(Moved(task, Tasks.Running), Tasks.Failed)
  {
    hide ToolCalls, Repaired, Act;
    FirstRound(env, task, preloaded);
    var d := FirstDecision(env).decision;
    var ready := ReadyState(env, task, preloaded);
    if task in {Tasks.Running, Tasks.Waiting, Tasks.ApprovalRequired} {
      LastAction(env, ready, d.status, d.actions, complete);
    }
  }

  /** The state in which the first decision is validated. */
  function ReadyState(env: Env, task: Tasks.Status, preloaded: nat): State {
    Start(task, preloaded).(calls := if env.llm(0).Garbled? then Repaired(env, 1, MAX_DECISION_RETRIES).1 else 1)
  }

  lemma FirstRound(env: Env, task: Tasks.Status, preloaded: nat)
    requires Unhindered(env, preloaded)
    ensures var d, ready := FirstDecision(env).decision, ReadyState(env, task, preloaded);
      Iterate(env, 1, Start(task, preloaded)) ==
        if Valid(env, 1, ready, d) then AfterActions(Act(env, 1, ready, d.status, d.actions, 0), ToolCalls(d.actions))
        else FailedWith(ready, Rejected)
  {
    hide Act, ToolCalls, Repaired, Moved, Valid, AfterActions;
  }

  lemma LastAction(env: Env, st: State, status: DecisionStatus, actions: seq<Action>, complete: bool)
    requires actions == [if complete then CompleteTask else FailTask]
    requires st.loaded in {Tasks.Running, Tasks.Waiting, Tasks.ApprovalRequired} && st.task == Tasks.Running
    ensures var end := if complete then Tasks.Completed else Tasks.Failed;
      Act(env, 1, st, status, actions, 0) ==
        Acted(st.(loaded := end, task := end), if complete then Completed else Failed, false)
  {
    var end := if complete then Tasks.Completed else Tasks.Failed;
    var ended := st.(loaded := end, task := end);
    assert Act(env, 1, ended, if complete then Completed else Failed, actions, 1)
        == Acted(ended, if complete then Completed else Failed, false);
  }

  /**
   * The status in memory still says assigned while the row is running, so a first decision with a
   * complete_task or fail_task action is always rejected and fails the task.
   */
  lemma ExplicitCompletionIsRejected(env: Env, preloaded: nat)
    requires env.llm(0).Decided? && !env.cancelled(1)
    requires CompleteTask in env.llm(0).decision.actions || FailTask in env.llm(0).decision.actions
    ensures var f := Executed(env, Tasks.Assigned, preloaded);
      f.result == Rejected && f.run == RunFailed && f.state.task == Tasks.Failed
  {
    hide Act, ToolCalls;
    assert !Valid(env, 1, Start(Tasks.Assigned, preloaded).(calls := 1), env.llm(0).decision);
  }
}
