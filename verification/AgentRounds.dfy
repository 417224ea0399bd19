/** What one iteration of an agent run comes to, read off the model's answers, the actions and the tools. */
module AgentRounds {
  import Tasks = TaskStore
  import opened AgentLoop

  /** Decision `d` is the first answer that parses, after `n` answers that do not. */
  predicate Gets(env: Env, calls: nat, d: Decision, n: nat) {
    n <= 2 && env.llm(calls + n) == Decided(d) && forall i: nat :: calls <= i < calls + n ==> env.llm(i).Garbled?
  }

  /** The positions of the call_tool actions. */
  function CallsIn(actions: seq<Action>): set<nat> { set k: nat | k < |actions| && actions[k].CallTool? }

  lemma {:induction false} ToolCallsAreCounted(actions: seq<Action>)
    ensures ToolCalls(actions) == |CallsIn(actions)|
    decreases |actions|
  {
    if actions != [] {
      var n := |actions| - 1;
      ToolCallsAreCounted(actions[..n]);
      assert CallsIn(actions) == CallsIn(actions[..n]) + if actions[n].CallTool? then {n} else {};
    }
  }

  /** What the checks in front of the actions ask of a decision. */
  predicate Acceptable(env: Env, iteration: nat, st: State, d: Decision) {
    && st.toolCount + |CallsIn(d.actions)| <= 10 && !env.refused(iteration)
    && (CompleteTask in d.actions || FailTask in d.actions ==> st.loaded in {Tasks.Running, Tasks.Waiting, Tasks.ApprovalRequired})
    && (d.status in {NeedsHuman, Waiting, ApprovalRequired} ==> d.hasResponse || d.actions != [])
  }

  lemma AcceptableIsValid(env: Env, iteration: nat, st: State, d: Decision)
    ensures Valid(env, iteration, st, d) <==> Acceptable(env, iteration, st, d)
  {
    ToolCallsAreCounted(d.actions);
  }

  /** The iteration asked `n` times in vain and then got `d`. */
  function Ready(st: State, n: nat): State { st.(calls := st.calls + n + 1) }

  lemma GottenIsActedOn(env: Env, iteration: nat, st: State, d: Decision, n: nat)
    requires !env.cancelled(iteration) && Gets(env, st.calls, d, n)
    ensures Iterate(env, iteration, st) ==
      if Acceptable(env, iteration, st, d)
      then AfterActions(Act(env, iteration, Ready(st, n), d.status, d.actions, 0), |CallsIn(d.actions)|)
      else FailedWith(Ready(st, n), Rejected)
  {
    hide Act, Valid, AfterActions, Acceptable;
    ToolCallsAreCounted(d.actions);
    AcceptableIsValid(env, iteration, Ready(st, n), d);
    AcceptsAlike(env, iteration, st, d, n);
    var c := st.calls;
    if n == 1 { assert Repaired(env, c + 1, 2) == (Decided(d), c + 2); }
    if n == 2 { assert env.llm(c + 1).Garbled? && Repaired(env, c + 1, 2) == Repaired(env, c + 2, 1) == (Decided(d), c + 3); }
  }

  lemma AcceptsAlike(env: Env, iteration: nat, st: State, d: Decision, n: nat)
    ensures Acceptable(env, iteration, Ready(st, n), d) == Acceptable(env, iteration, st, d)
  {
  }

  /** The row after an update to failed whose error is ignored. */
  function FailedRow(task: Tasks.Status): Tasks.Status {
    if task in {Tasks.Running, Tasks.Waiting, Tasks.ApprovalRequired, Tasks.InProgress, Tasks.InReview} then Tasks.Failed else task
  }

  lemma FailedRowIsMoved(task: Tasks.Status)
    ensures Moved(task, Tasks.Failed) == FailedRow(task)
  {
  }

  /**
   * How an iteration ends without acting: cancelled, without an answer, without one that parses among three, or with a
   * decision that is not acceptable. In the last three cases the run and the task row fail; no tool is run.
   */
  lemma RoundWithoutActions(env: Env, iteration: nat, st: State)
    ensures var round := Iterate(env, iteration, st);
      && (env.cancelled(iteration) ==> round == Ended(Final(st, Cancelled, TimedOut)))
      && (!env.cancelled(iteration) && env.llm(st.calls).NoReply? ==>
            round == Ended(Final(st.(calls := st.calls + 1, task := FailedRow(st.task)), RunFailed, ModelError)))
      && (!env.cancelled(iteration) && !env.llm(st.calls).NoReply? && (forall d, n :: !Gets(env, st.calls, d, n)) ==>
            round.Ended? && round.final.run == RunFailed && round.final.result == InvalidDecision
            && round.final.state == st.(calls := round.final.state.calls, task := FailedRow(st.task)))
    ensures forall d, n :: !env.cancelled(iteration) && Gets(env, st.calls, d, n) && !Acceptable(env, iteration, st, d) ==>
      Iterate(env, iteration, st) == Ended(Final(Ready(st, n).(task := FailedRow(st.task)), RunFailed, Rejected))
  {
    hide Act, Valid, AfterActions, Acceptable;
    FailedRowIsMoved(st.task);
    hide Moved, FailedRow;
    forall d, n | !env.cancelled(iteration) && Gets(env, st.calls, d, n) && !Acceptable(env, iteration, st, d)
      ensures Iterate(env, iteration, st) == Ended(Final(Ready(st, n).(task := FailedRow(st.task)), RunFailed, Rejected))
    {
      GottenIsActedOn(env, iteration, st, d, n);
    }
    if forall d, n :: !Gets(env, st.calls, d, n) { NothingGotten(env, st.calls); }
  }

  lemma NothingGotten(env: Env, calls: nat)
    requires forall d, n :: !Gets(env, calls, d, n)
    ensures !env.llm(calls).Decided?
    ensures env.llm(calls).Garbled? ==> !Repaired(env, calls + 1, MAX_DECISION_RETRIES).0.Decided?
  {
    var a, b, c := env.llm(calls), env.llm(calls + 1), env.llm(calls + 2);
    if a.Decided? { assert Gets(env, calls, a.decision, 0); }
    if a.Garbled? && b.Decided? { assert Gets(env, calls, b.decision, 1); }
    if a.Garbled? && b.Garbled? && c.Decided? { assert Gets(env, calls, c.decision, 2); }
    assert Repaired(env, calls + 1, 2) == if b.Garbled? then Repaired(env, calls + 2, 1) else (b, calls + 2);
    assert Repaired(env, calls + 2, 1) == if c.Garbled? then (Garbled, calls + 3) else (c, calls + 3);
  }

  // ----- what a list of actions says

  predicate Ends(a: Action) { a.CompleteTask? || a.FailTask? }

  /** The status an action asks for. */
  function Target(a: Action): (to: Tasks.Status)
    requires a.UpdateTask? || Ends(a)
  {
    match a
    case UpdateTask(to) => to
    case CompleteTask => Tasks.Completed
    case _ => Tasks.Failed
  }

  /** Both tables allow the change: the runtime's from the status in memory, the repository's from the row's. */
  predicate Moves(loaded: Tasks.Status, task: Tasks.Status, to: Tasks.Status) {
    && !Tasks.Legacy(loaded) && to in Tasks.Transitions(loaded)
    && (to == task || to in Tasks.Transitions(task)) && !Tasks.Legacy(to) && !to.Unrecognised?
  }

  /** The status in memory and the row's behind the first `k` actions. */
  function Copies(st: State, actions: seq<Action>, k: nat): (Tasks.Status, Tasks.Status)
    requires k <= |actions|
  {
    if k == 0 then (st.loaded, st.task)
    else
      var (loaded, task) := Copies(st, actions, k - 1);
      var a := actions[k - 1];
      if (a.UpdateTask? || Ends(a)) && Moves(loaded, task, Target(a)) then (Target(a), Target(a)) else (loaded, task)
  }

  /** Action `j` rewrites the status of the decision: it asks for approval, or it ends the task and may. */
  predicate Rewrites(st: State, actions: seq<Action>, j: nat)
    requires j < |actions|
  {
    actions[j].RequestApproval?
    || (Ends(actions[j]) && Moves(Copies(st, actions, j).0, Copies(st, actions, j).1, Target(actions[j])))
  }

  /** The last of the first `k` actions that rewrites the status. */
  ghost predicate LastRewrite(st: State, actions: seq<Action>, k: nat, j: nat)
    requires k <= |actions|
  {
    j < k && Rewrites(st, actions, j) && forall i: nat :: j < i < k ==> !Rewrites(st, actions, i)
  }

  function Written(a: Action): DecisionStatus {
    if a.CompleteTask? then Completed else if a.FailTask? then Failed else ApprovalRequired
  }

  /** The status of a decision behind its first `k` actions is what the last rewrite wrote, or its own. */
  ghost predicate Said(st: State, status: DecisionStatus, actions: seq<Action>, k: nat, said: DecisionStatus)
    requires k <= |actions|
  {
    && (forall j: nat :: LastRewrite(st, actions, k, j) ==> said == Written(actions[j]))
    && ((forall j: nat :: j < k ==> !Rewrites(st, actions, j)) ==> said == status)
  }

  /** The list stops at action `k`: a tool that needs approval, or a subtask for which there is no agent. */
  predicate StopsAt(env: Env, iteration: nat, runs: nat, actions: seq<Action>, k: nat) {
    k < |actions| &&
    ((actions[k].CallTool? && env.tool(runs + |CallsIn(actions[..k])|).NeedsApproval?)
     || (actions[k].CreateTask? && env.demanding && !env.eligible(iteration, k)))
  }

  predicate FirstStop(env: Env, iteration: nat, runs: nat, actions: seq<Action>, k: nat) {
    StopsAt(env, iteration, runs, actions, k) && forall i: nat :: i < k ==> !StopsAt(env, iteration, runs, actions, i)
  }

  lemma SaidNext(st: State, status: DecisionStatus, actions: seq<Action>, k: nat, said: DecisionStatus)
    requires k < |actions| && Said(st, status, actions, k, said)
    ensures Said(st, status, actions, k + 1, if Rewrites(st, actions, k) then Written(actions[k]) else said)
  {
    hide Rewrites;
    var next := k + 1;
    if Rewrites(st, actions, k) {
      forall j: nat | LastRewrite(st, actions, next, j) ensures j == k {}
    } else {
      forall j: nat | LastRewrite(st, actions, next, j) ensures LastRewrite(st, actions, k, j) {}
    }
  }

  /** There is one such status only. */
  lemma {:induction false} OneSaid(st: State, status: DecisionStatus, actions: seq<Action>, k: nat, a: DecisionStatus, b: DecisionStatus)
    requires k <= |actions| && Said(st, status, actions, k, a) && Said(st, status, actions, k, b)
    ensures a == b
  {
    hide Rewrites;
    if j: nat :| j < k && Rewrites(st, actions, j) { var l := LastOne(st, actions, k, j); }
  }

  lemma {:induction false} LastOne(st: State, actions: seq<Action>, k: nat, j: nat) returns (l: nat)
    requires j < k <= |actions| && Rewrites(st, actions, j)
    ensures LastRewrite(st, actions, k, l)
    decreases k - j
  {
    hide Rewrites;
    if i: nat :| j < i < k && Rewrites(st, actions, i) { l := LastOne(st, actions, k, i); } else { l := j; }
  }

  /** How far the run has got when the first `k` actions are done. */
  predicate Reached(st0: State, st: State, actions: seq<Action>, k: nat)
    requires k <= |actions|
  {
    st.toolRuns == st0.toolRuns + |CallsIn(actions[..k])| && (st.loaded, st.task) == Copies(st0, actions, k)
  }

  /** What a list of actions comes to, from the status it has at action `k` on: up to its first stop, or to its end. */
  ghost predicate Outcome(env: Env, iteration: nat, st0: State, status: DecisionStatus, actions: seq<Action>, a: Acted) {
    && (a.failed <==> exists m: nat :: FirstStop(env, iteration, st0.toolRuns, actions, m))
    && (forall m: nat :: FirstStop(env, iteration, st0.toolRuns, actions, m) ==>
          ((if actions[m].CallTool? then a.status == ApprovalRequired else Said(st0, status, actions, m, a.status))
           && a.state.toolRuns == st0.toolRuns + |CallsIn(actions[..m + 1])|
           && (a.state.loaded, a.state.task) == Copies(st0, actions, m)))
    && (!a.failed ==> Said(st0, status, actions, |actions|, a.status)
                      && a.state.toolRuns == st0.toolRuns + |CallsIn(actions)|
                      && (a.state.loaded, a.state.task) == Copies(st0, actions, |actions|))
  }

  /** The result of the whole list, from its first stop, if there is one, and from what it says. */
  lemma {:induction false} ActSays(env: Env, iteration: nat, st0: State, st: State, status: DecisionStatus, said: DecisionStatus,
                                   actions: seq<Action>, k: nat)
    requires k <= |actions| && Reached(st0, st, actions, k) && Said(st0, status, actions, k, said)
    requires forall i: nat :: i < k ==> !StopsAt(env, iteration, st0.toolRuns, actions, i)
    ensures Outcome(env, iteration, st0, status, actions, Act(env, iteration, st, said, actions, k))
    decreases |actions| - k
  {
    hide Said, Effect, Act, Reached, StopsAt;
    if k == |actions| {
      ActsEnd(env, iteration, st0, st, said, actions);
    } else {
      NextActed(env, iteration, st0, st, said, actions, k);
      if StopsAt(env, iteration, st0.toolRuns, actions, k) {
        forall m: nat | FirstStop(env, iteration, st0.toolRuns, actions, m) ensures m == k {
          if m < k { assert false; }
        }
        assert FirstStop(env, iteration, st0.toolRuns, actions, k);
      } else {
        SaidNext(st0, status, actions, k, said);
        var (next, s) := Effect(st, said, actions[k]);
        ActSays(env, iteration, st0, next, status, s, actions, k + 1);
      }
    }
  }

  lemma ActsEnd(env: Env, iteration: nat, st0: State, st: State, said: DecisionStatus, actions: seq<Action>)
    requires Reached(st0, st, actions, |actions|)
    requires forall i: nat :: i < |actions| ==> !StopsAt(env, iteration, st0.toolRuns, actions, i)
    ensures Act(env, iteration, st, said, actions, |actions|) == Acted(st, said, false)
    ensures st.toolRuns == st0.toolRuns + |CallsIn(actions)| && (st.loaded, st.task) == Copies(st0, actions, |actions|)
    ensures forall m: nat :: !FirstStop(env, iteration, st0.toolRuns, actions, m)
  {
    assert actions[..|actions|] == actions;
  }

  lemma OneMoreCall(actions: seq<Action>, k: nat)
    requires k < |actions|
    ensures |CallsIn(actions[..k + 1])| == |CallsIn(actions[..k])| + if actions[k].CallTool? then 1 else 0
  {
    ToolCallsAreCounted(actions[..k + 1]);
    ToolCallsAreCounted(actions[..k]);
    assert actions[..k + 1][..k] == actions[..k];
  }

  /** One action: the list stops at it, or goes on with what it says and with the copies it leaves. */
  lemma NextActed(env: Env, iteration: nat, st0: State, st: State, said: DecisionStatus, actions: seq<Action>, k: nat)
    requires k < |actions| && Reached(st0, st, actions, k)
    ensures var a := Act(env, iteration, st, said, actions, k);
      if StopsAt(env, iteration, st0.toolRuns, actions, k)
      then a.failed && a.status == (if actions[k].CallTool? then ApprovalRequired else said)
           && a.state.toolRuns == st0.toolRuns + |CallsIn(actions[..k + 1])|
           && (a.state.loaded, a.state.task) == Copies(st0, actions, k)
      else
        var (next, s) := Effect(st, said, actions[k]);
        && a == Act(env, iteration, next, s, actions, k + 1) && Reached(st0, next, actions, k + 1)
        && s == if Rewrites(st0, actions, k) then Written(actions[k]) else said
  {
    OneMoreCall(actions, k);
    EffectSays(st0, st, said, actions, k);
    hide Reached, CallsIn, Rewrites;
    ReachedRuns(st0, st, actions, k);
  }

  lemma ReachedRuns(st0: State, st: State, actions: seq<Action>, k: nat)
    requires k <= |actions| && Reached(st0, st, actions, k)
    ensures st.toolRuns == st0.toolRuns + |CallsIn(actions[..k])|
  {
  }

  lemma EffectSays(st0: State, st: State, said: DecisionStatus, actions: seq<Action>, k: nat)
    requires k < |actions| && Reached(st0, st, actions, k)
    ensures var (next, s) := Effect(st, said, actions[k]);
      && Reached(st0, next, actions, k + 1)
      && s == if Rewrites(st0, actions, k) then Written(actions[k]) else said
  {
    OneMoreCall(actions, k);
    hide CallsIn, Tasks.Transitions;
  }

  // ----- parking

  /** The actions stop where a human is needed, or say so in the end. */
  ghost predicate NeedsSomebody(env: Env, iteration: nat, st: State, d: Decision) {
    || (exists m: nat, said :: FirstStop(env, iteration, st.toolRuns, d.actions, m) && Said(st, d.status, d.actions, m, said)
          && (d.actions[m].CallTool? || said in {ApprovalRequired, Waiting}))
    || ((forall m: nat :: !FirstStop(env, iteration, st.toolRuns, d.actions, m))
        && exists said :: Said(st, d.status, d.actions, |d.actions|, said) && said in {NeedsHuman, Waiting, ApprovalRequired})
  }

  predicate Parks(round: Round) { round.Ended? && round.final.result == Parked }

  lemma RoundActs(env: Env, iteration: nat, st: State, d: Decision, n: nat) returns (a: Acted)
    requires !env.cancelled(iteration) && Gets(env, st.calls, d, n) && Acceptable(env, iteration, st, d)
    ensures Iterate(env, iteration, st) == AfterActions(a, |CallsIn(d.actions)|)
    ensures Outcome(env, iteration, st, d.status, d.actions, a)
    ensures a.state.calls == st.calls + n + 1 && a.state.toolCount == st.toolCount
  {
    hide Act, AfterActions, FirstStop, StopsAt, Acceptable, Gets, Iterate;
    var ready := Ready(st, n);
    a := Act(env, iteration, ready, d.status, d.actions, 0);
    GottenIsActedOn(env, iteration, st, d, n);
    NothingDone(st, ready, d.status, d.actions);
    hide Said, Reached, Outcome;
    ActSays(env, iteration, st, ready, d.status, d.status, d.actions, 0);
    ActBounds(env, iteration, ready, d.status, d.actions, 0);
  }

  lemma NothingDone(st: State, ready: State, status: DecisionStatus, actions: seq<Action>)
    requires (ready.loaded, ready.task, ready.toolRuns) == (st.loaded, st.task, st.toolRuns)
    ensures Said(st, status, actions, 0, status) && Reached(st, ready, actions, 0)
  {
    assert CallsIn(actions[..0]) == {};
  }

  /** Every list says something at every place. */
  lemma {:induction false} SomethingSaid(st: State, status: DecisionStatus, actions: seq<Action>, k: nat) returns (said: DecisionStatus)
    requires k <= |actions|
    ensures Said(st, status, actions, k, said)
  {
    hide Rewrites;
    if j: nat :| j < k && Rewrites(st, actions, j) {
      var l := LastOne(st, actions, k, j);
      said := Written(actions[l]);
    } else {
      said := status;
    }
  }

  /**
   * Exactly which decisions park a run: those whose actions stop at a tool that needs approval, or at a subtask
   * without an agent when the status is approval_required or waiting by then, or that are through and say
   * needs_human, waiting or approval_required.
   */
  lemma ParksIff(env: Env, iteration: nat, st: State, d: Decision, n: nat)
    requires !env.cancelled(iteration) && Gets(env, st.calls, d, n) && Acceptable(env, iteration, st, d)
    ensures var round := Iterate(env, iteration, st);
      && (Parks(round) <==> NeedsSomebody(env, iteration, st, d))
      && (Parks(round) ==> round.final.run == AwaitingApproval)
  {
    hide Said, FirstStop, Acceptable, Gets, Iterate, Moved, CallsIn;
    var a := RoundActs(env, iteration, st, d, n);
    if m: nat :| FirstStop(env, iteration, st.toolRuns, d.actions, m) {
      OneFirstStop(env, iteration, st.toolRuns, d.actions, m);
      var said := SomethingSaid(st, d.status, d.actions, m);
      if !d.actions[m].CallTool? { OnlySaid(st, d.status, d.actions, m, a.status); }
    } else {
      OnlySaid(st, d.status, d.actions, |d.actions|, a.status);
    }
  }

  lemma OnlySaid(st: State, status: DecisionStatus, actions: seq<Action>, k: nat, a: DecisionStatus)
    requires k <= |actions| && Said(st, status, actions, k, a)
    ensures forall b :: Said(st, status, actions, k, b) ==> b == a
  {
    hide Said;
    forall b | Said(st, status, actions, k, b) ensures b == a { OneSaid(st, status, actions, k, a, b); }
  }

  lemma OneFirstStop(env: Env, iteration: nat, runs: nat, actions: seq<Action>, m: nat)
    requires FirstStop(env, iteration, runs, actions, m)
    ensures m < |actions| && forall k: nat :: FirstStop(env, iteration, runs, actions, k) ==> k == m
  {
    hide StopsAt;
    forall k: nat | FirstStop(env, iteration, runs, actions, k) ensures k == m {
      if k < m { assert false; } else if m < k { assert false; }
    }
    StopIsAction(env, iteration, runs, actions, m);
  }

  lemma StopIsAction(env: Env, iteration: nat, runs: nat, actions: seq<Action>, m: nat)
    requires StopsAt(env, iteration, runs, actions, m)
    ensures m < |actions|
  {
  }

  /** The row after an update whose error is ignored, to a status that only running rows may enter. */
  function ParkedAs(task: Tasks.Status, to: Tasks.Status): Tasks.Status { if task == Tasks.Running then to else task }

  /**
   * The task row of a parked run, from what its actions made of it: approval_required if they stopped, waiting if they
   * said so, provided it is still running.
   */
  lemma ParkedRow(env: Env, iteration: nat, st: State, d: Decision, n: nat)
    requires !env.cancelled(iteration) && Gets(env, st.calls, d, n) && Acceptable(env, iteration, st, d)
    requires NeedsSomebody(env, iteration, st, d)
    ensures var round := Iterate(env, iteration, st);
      && Parks(round)
      && (forall m: nat :: FirstStop(env, iteration, st.toolRuns, d.actions, m) ==>
            m < |d.actions| && round.final.state.task == ParkedAs(Copies(st, d.actions, m).1, Tasks.ApprovalRequired))
      && ((forall m: nat :: !FirstStop(env, iteration, st.toolRuns, d.actions, m)) ==>
            round.final.state.task == ParkedAs(Copies(st, d.actions, |d.actions|).1, Tasks.Waiting))
  {
    hide Said, FirstStop, Acceptable, Gets, Iterate, CallsIn, Copies, Moved;
    ParksIff(env, iteration, st, d, n);
    var a := RoundActs(env, iteration, st, d, n);
    ParkedIsMoved(a.state.task);
    hide NeedsSomebody;
    forall m: nat | FirstStop(env, iteration, st.toolRuns, d.actions, m) ensures m < |d.actions| {
      OneFirstStop(env, iteration, st.toolRuns, d.actions, m);
    }
  }

  lemma ParkedIsMoved(task: Tasks.Status)
    ensures Moved(task, Tasks.ApprovalRequired) == ParkedAs(task, Tasks.ApprovalRequired)
    ensures Moved(task, Tasks.Waiting) == ParkedAs(task, Tasks.Waiting)
  {
  }

  /** Asking for approval parks the run, whatever the status, the tools and the environment, if there is no explicit end. */
  lemma RequestApprovalParks(env: Env, iteration: nat, st: State, d: Decision, n: nat)
    requires !env.cancelled(iteration) && Gets(env, st.calls, d, n) && Acceptable(env, iteration, st, d)
    requires RequestApproval in d.actions && CompleteTask !in d.actions && FailTask !in d.actions
    requires forall k :: 0 <= k < |d.actions| && d.actions[k].CreateTask? ==> !env.demanding || env.eligible(iteration, k)
    ensures var round := Iterate(env, iteration, st);
      Parks(round) && round.final.run == AwaitingApproval
  {
    hide Gets, Acceptable, Iterate, Said;
    ParksIff(env, iteration, st, d, n);
    ApprovalIsSaid(st, d.status, d.actions);
    if m: nat :| FirstStop(env, iteration, st.toolRuns, d.actions, m) {
      assert StopsAt(env, iteration, st.toolRuns, d.actions, m);
      assert d.actions[m].CallTool?;
      var said := SomethingSaid(st, d.status, d.actions, m);
    }
  }

  lemma ApprovalIsSaid(st: State, status: DecisionStatus, actions: seq<Action>)
    requires RequestApproval in actions && CompleteTask !in actions && FailTask !in actions
    ensures Said(st, status, actions, |actions|, ApprovalRequired)
  {
    var i :| 0 <= i < |actions| && actions[i] == RequestApproval;
    forall j: nat | j < |actions| && Rewrites(st, actions, j) ensures Written(actions[j]) == ApprovalRequired {
      assert actions[j] in actions;
    }
    assert Rewrites(st, actions, i);
  }

  /**
   * What becomes of a decision that does not park: done or failed as it says, on to the next iteration with its tool
   * calls counted, or the error of a subtask without an agent, which leaves the run row alone.
   */
  lemma OtherwiseGoesOn(env: Env, iteration: nat, st: State, d: Decision, n: nat, said: DecisionStatus)
    requires !env.cancelled(iteration) && Gets(env, st.calls, d, n) && Acceptable(env, iteration, st, d)
    requires !NeedsSomebody(env, iteration, st, d) && Said(st, d.status, d.actions, |d.actions|, said)
    ensures var round := Iterate(env, iteration, st);
      if exists m: nat :: FirstStop(env, iteration, st.toolRuns, d.actions, m)
      then round.Ended? && round.final.result == ActionError && round.final.run == Running
      else if said == Completed then round.Ended? && round.final.result == Done && round.final.run == Succeeded
      else if said == Failed then round.Ended? && round.final.result == AgentFailed && round.final.run == RunFailed
      else
        && round.Next? && round.state.calls == st.calls + n + 1
        && round.state.toolCount == st.toolCount + |CallsIn(d.actions)|
        && round.state.toolRuns == st.toolRuns + |CallsIn(d.actions)|
        && (round.state.loaded, round.state.task) == Copies(st, d.actions, |d.actions|)
  {
    hide Said, FirstStop, Gets, Iterate, Moved, CallsIn, Copies;
    var a := RoundActs(env, iteration, st, d, n);
    ParksIff(env, iteration, st, d, n);
    if !a.failed { OneSaid(st, d.status, d.actions, |d.actions|, a.status, said); }
    hide NeedsSomebody;
  }
}
