/**
 * The executor, the approval service and the approval handlers as one service over the two tables. Each
 * call is tied to the protocol: it is the run of its own statements, one after the other.
 */
module ToolService {
  import opened Options
  import opened ToolProtocol
  import opened ToolSafety

  /** What the world answers during one call of Execute: ids, the clock, and which statements succeed. */
  datatype Env = Env(now: int, approval: ApprovalId, exec: ExecId, checks: bool, askOk: bool, insertOk: bool,
                     access: bool, search: bool, provider: bool)

  /** What it answers while an approved row is treated. */
  datatype RowEnv = RowEnv(check: Recheck, search: bool, provider: bool)

  datatype Reply = Existing(exec: ExecId) | Refused | Waiting(exec: ExecId, approval: ApprovalId)
                 | NoAccess(exec: ExecId) | Ran(exec: ExecId, ok: bool)

  /** The statements of one call of Execute, on whatever branch; those of the other branches change nothing. */
  function ExecuteSteps(c: CallerId, p: Params, env: Env): seq<Step> {
    [Begin(c, p), Lookup(c, env.checks), Ask(c, env.approval, env.now, env.askOk), InsertGated(c, env.exec, env.insertOk),
     InsertPlain(c, env.exec, env.insertOk), Admit(c, env.access), CallerSearch(c, env.search),
     CallerProvider(c, env.provider), CallerFinish(c)]
  }

  function RowSteps(h: HandlerId, e: ExecId, env: RowEnv): seq<Step> {
    [TakeRow(h, e, env.check), HandlerSearch(h, env.search), HandlerProvider(h, env.provider), HandlerFinish(h)]
  }

  function TreatSteps(h: HandlerId, rows: seq<ExecId>, env: ExecId -> RowEnv): seq<Step> {
    if rows == [] then [] else TreatSteps(h, rows[..|rows| - 1], env) + RowSteps(h, rows[|rows| - 1], env(rows[|rows| - 1]))
  }

  lemma NothingToTreat(h: HandlerId, env: ExecId -> RowEnv)
    ensures TreatSteps(h, [], env) == []
  {
  }

  lemma TreatSnoc(h: HandlerId, rows: seq<ExecId>, i: nat, env: ExecId -> RowEnv)
    requires i < |rows|
    ensures TreatSteps(h, rows[..i + 1], env) == TreatSteps(h, rows[..i], env) + RowSteps(h, rows[i], env(rows[i]))
  {
    assert rows[..i + 1][..i] == rows[..i];
  }

  /** A decision and the handler's query behind it. */
  function Queried(s: State, h: HandlerId, decision: Step, ok: bool): State {
    Apply(Apply(s, decision), ListRows(h, ok))
  }

  function FailSteps(h: HandlerId, rows: seq<ExecId>): seq<Step> {
    seq(|rows|, i requires 0 <= i < |rows| => FailRow(h, rows[i]))
  }

  lemma FailSnoc(h: HandlerId, rows: seq<ExecId>, i: nat)
    requires i < |rows|
    ensures |FailSteps(h, rows)| == |rows| && FailSteps(h, rows)[..i + 1] == FailSteps(h, rows)[..i] + [FailRow(h, rows[i])]
  {
  }

  lemma RunSnoc(s: State, steps: seq<Step>, step: Step)
    ensures Run(s, steps + [step]) == Apply(Run(s, steps), step)
  {
    assert (steps + [step])[..|steps|] == steps;
  }

  lemma FourSteps(s: State, a: Step, b: Step, c: Step, d: Step)
    ensures Run(s, [a, b, c, d]) == Apply(Apply(Apply(Apply(s, a), b), c), d)
  {
    hide Apply;
    RunSnoc(s, [a, b, c], d);
    RunSnoc(s, [a, b], c);
    RunSnoc(s, [a], b);
    RunSnoc(s, [], a);
    assert [a, b, c] + [d] == [a, b, c, d] && [a, b] + [c] == [a, b, c] && [a] + [b] == [a, b] && [] + [a] == [a];
  }

  lemma ExecuteUnrolled(s: State, c: CallerId, p: Params, env: Env)
    ensures Run(s, ExecuteSteps(c, p, env)) ==
            Run(InsertsOf(Apply(Apply(s, Begin(c, p)), Lookup(c, env.checks)), c, env), HeldSteps(c, env))
  {
    hide Apply;
    var head := [Begin(c, p), Lookup(c, env.checks), Ask(c, env.approval, env.now, env.askOk), InsertGated(c, env.exec, env.insertOk)];
    var last := InsertPlain(c, env.exec, env.insertOk);
    FourSteps(s, head[0], head[1], head[2], head[3]);
    RunSnoc(s, head, last);
    assert ExecuteSteps(c, p, env) == (head + [last]) + HeldSteps(c, env);
    RunConcat(s, head + [last], HeldSteps(c, env));
  }

  /** From the insert of a running row to the end of the call. */
  function HeldSteps(c: CallerId, env: Env): seq<Step> {
    [Admit(c, env.access), CallerSearch(c, env.search), CallerProvider(c, env.provider), CallerFinish(c)]
  }

  class Service {
    var approvals: map<ApprovalId, Approval>
    var executions: map<ExecId, Execution>
    var clock: int
    ghost var callers: map<CallerId, Caller>
    ghost var handlers: map<HandlerId, Handler>
    ghost var log: seq<Event>

    ghost function State(): State reads this {
      ToolProtocol.State(approvals, executions, callers, handlers, log, clock)
    }

    /** No key was run twice, and nothing gated without its grant. */
    ghost predicate Valid() reads this { Inv(State()) }

    constructor ()
      ensures State() == START && Valid()
    {
      approvals, executions, clock := map[], map[], 0;
      callers, handlers, log := map[], map[], [];
    }

    method Find(org: OrgId, key: Key) returns (r: Option<ExecId>)
      ensures r.Some? <==> KeyKnown(executions, org, key)
      ensures r.Some? ==> r.value in executions && executions[r.value].org == org && executions[r.value].key == key
    {
      var ids := executions.Keys;
      while ids != {}
        invariant ids <= executions.Keys
        invariant forall e :: e in executions && e !in ids ==> executions[e].org != org || executions[e].key != key
      {
        var e :| e in ids;
        if executions[e].org == org && executions[e].key == key { return Some(e); }
        ids := ids - {e};
      }
      r := None;
    }

    /** The insert of a row; the table refuses a key it holds already. */
    method CreateToolExecution(e: ExecId, row: Execution, ok: bool) returns (created: bool)
      requires e !in executions
      modifies this`executions
      ensures created == (ok && !KeyTaken(old(executions), row.key))
      ensures executions == if created then old(executions)[e := row] else old(executions)
    {
      created := ok && !exists f :: f in executions && executions[f].key == row.key;
      if created { executions := executions[e := row]; }
    }

    method Execute(c: CallerId, p: Params, env: Env) returns (r: Reply)
      requires Valid() && c !in callers && env.approval !in approvals && env.exec !in executions && clock <= env.now
      modifies this
      ensures State() == Run(old(State()), ExecuteSteps(c, p, env)) && Valid()
      ensures r.Existing? ==>
        KeyKnown(old(executions), p.org, p.key) && r.exec in executions
        && executions[r.exec].org == p.org && executions[r.exec].key == p.key
      ensures KeyKnown(old(executions), p.org, p.key) ==> r.Existing?
      ensures r.Refused? <==>
        !KeyKnown(old(executions), p.org, p.key)
        && (!env.checks || (p.gated && !env.askOk) || !env.insertOk || KeyTaken(old(executions), p.key))
      ensures r.Existing? || r.Refused? ==> executions == old(executions) && log == old(log)
      ensures approvals ==
        if p.gated && env.checks && env.askOk && !KeyKnown(old(executions), p.org, p.key)
        then old(approvals)[env.approval := Approval(p.org, Pending, env.now + 24 * 3600 * 1_000_000_000, None)]
        else old(approvals)
      ensures r.Waiting? ==>
        p.gated && log == old(log) && r.approval == env.approval
        && executions == old(executions)[r.exec := Execution(p.org, p.key, p.tool, ApprovalRequired, Some(r.approval), c)]
      ensures r.NoAccess? <==> !p.gated && !r.Existing? && !r.Refused? && p.tool.Browser? && !env.access
      ensures r.NoAccess? ==>
        log == old(log) && executions == old(executions)[r.exec := Execution(p.org, p.key, p.tool, Failed, None, c)]
      ensures r.Ran? ==>
        !p.gated && r.ok == ((p.tool.WebSearch? && env.search) || env.provider)
        && log == old(log) + (if p.tool.WebSearch? then [Called(r.exec, Search)] else [])
                  + (if p.tool.WebSearch? && env.search then [] else [Called(r.exec, Provider)])
        && executions == old(executions)[r.exec := Execution(p.org, p.key, p.tool, if r.ok then Succeeded else Failed, None, c)]
    {
      hide Apply, Run, ExecuteSteps, HeldSteps, InsertsOf, KeyTaken, Inv;
      RunKeepsInv(State(), ExecuteSteps(c, p, env));
      ExecuteUnrolled(State(), c, p, env);
      LookupStep(State(), c, p, env.checks);
      var existing := Find(p.org, p.key);
      if existing.Some? || !env.checks {
        callers := callers[c := Caller(p, Left)];
        LeftStays(State(), c, env);
        return if existing.Some? then Existing(existing.value) else Refused;
      }
      callers := callers[c := Caller(p, Checked)];
      if p.gated {
        r := AskFirst(c, p, env);
      } else {
        r := RunNow(c, p, env);
      }
    }

    /** The branch of a tool that needs approval: an approval, then a row that waits for it. */
    method AskFirst(c: CallerId, p: Params, env: Env) returns (r: Reply)
      requires c in callers && callers[c] == Caller(p, Checked) && p.gated
      requires env.approval !in approvals && env.exec !in executions && clock <= env.now
      modifies this
      ensures State() == Run(InsertsOf(old(State()), c, env), HeldSteps(c, env))
      ensures r.Waiting? || r.Refused?
      ensures r.Refused? <==> !env.askOk || !env.insertOk || KeyTaken(old(executions), p.key)
      ensures log == old(log) && (r.Refused? ==> executions == old(executions))
      ensures approvals ==
        if env.askOk then old(approvals)[env.approval := Approval(p.org, Pending, env.now + 24 * 3600 * 1_000_000_000, None)]
        else old(approvals)
      ensures r.Waiting? ==>
        r.approval == env.approval
        && executions == old(executions)[r.exec := Execution(p.org, p.key, p.tool, ApprovalRequired, Some(r.approval), c)]
    {
      hide Apply, Run, HeldSteps, InsertsOf, KeyTaken;
      GatedInserts(State(), c, env);
      if !env.askOk {
        callers := callers[c := Caller(p, Left)];
        LeftStays(State(), c, env);
        return Refused;
      }
      approvals, clock := approvals[env.approval := Approval(p.org, Pending, env.now + DAY, None)], env.now;
      var row := Execution(p.org, p.key, p.tool, ApprovalRequired, Some(env.approval), c);
      var created := CreateToolExecution(env.exec, row, env.insertOk);
      callers := callers[c := Caller(p, Left)];
      LeftStays(State(), c, env);
      r := if created then Waiting(env.exec, env.approval) else Refused;
    }

    /** The branch of a tool that needs none: a running row, the call, the row's final status. */
    method RunNow(c: CallerId, p: Params, env: Env) returns (r: Reply)
      requires c in callers && callers[c] == Caller(p, Checked) && !p.gated
      requires env.approval !in approvals && env.exec !in executions && clock <= env.now
      modifies this
      ensures State() == Run(InsertsOf(old(State()), c, env), HeldSteps(c, env))
      ensures !r.Waiting?
      ensures r.Refused? <==>
        !KeyKnown(old(executions), p.org, p.key) && (!env.insertOk || KeyTaken(old(executions), p.key))
      ensures r.Existing? || r.Refused? ==> executions == old(executions) && log == old(log)
      ensures r.Existing? ==>
        r.exec in executions && executions[r.exec].org == p.org && executions[r.exec].key == p.key
      ensures approvals == old(approvals)
      ensures r.NoAccess? <==> !r.Existing? && !r.Refused? && p.tool.Browser? && !env.access
      ensures r.NoAccess? ==>
        log == old(log) && executions == old(executions)[r.exec := Execution(p.org, p.key, p.tool, Failed, None, c)]
      ensures r.Ran? ==>
        r.ok == ((p.tool.WebSearch? && env.search) || env.provider)
        && log == old(log) + (if p.tool.WebSearch? then [Called(r.exec, Search)] else [])
                  + (if p.tool.WebSearch? && env.search then [] else [Called(r.exec, Provider)])
        && executions == old(executions)[r.exec := Execution(p.org, p.key, p.tool, if r.ok then Succeeded else Failed, None, c)]
    {
      hide Apply, Run, HeldSteps, InsertsOf, KeyTaken, KeyKnown;
      PlainInserts(State(), c, env);
      var created := CreateToolExecution(env.exec, Execution(p.org, p.key, p.tool, Running, None, c), env.insertOk);
      if !created {
        callers := callers[c := Caller(p, Left)];
        LeftStays(State(), c, env);
        var existing := Find(p.org, p.key);
        return if existing.Some? then Existing(existing.value) else Refused;
      }
      callers := callers[c := Caller(p, Holding(env.exec))];
      r := RunHeld(c, p, env);
    }

    /** From the insert of a running row to its final status. */
    method RunHeld(c: CallerId, p: Params, env: Env) returns (r: Reply)
      requires c in callers && callers[c] == Caller(p, Holding(env.exec)) && env.exec in executions
      modifies this
      ensures State() == Run(old(State()), HeldSteps(c, env))
      ensures (r.NoAccess? || r.Ran?) && r.exec == env.exec && approvals == old(approvals)
      ensures r.NoAccess? <==> p.tool.Browser? && !env.access
      ensures
        var row := old(executions)[env.exec];
        if r.NoAccess? then log == old(log) && executions == old(executions)[env.exec := row.(status := Failed)]
        else r.ok == ((p.tool.WebSearch? && env.search) || env.provider)
             && log == old(log) + (if p.tool.WebSearch? then [Called(r.exec, Search)] else [])
                       + (if p.tool.WebSearch? && env.search then [] else [Called(r.exec, Provider)])
             && executions == old(executions)[env.exec := row.(status := if r.ok then Succeeded else Failed)]
    {
      hide Apply, Run, HeldSteps;
      HeldRun(State(), c, env);
      if p.tool.Browser? && !env.access {
        executions := executions[env.exec := executions[env.exec].(status := Failed)];
        callers := callers[c := Caller(p, Left)];
        return NoAccess(env.exec);
      }
      var ok := p.tool.WebSearch? && env.search;
      if p.tool.WebSearch? { log := log + [Called(env.exec, Search)]; }
      if !ok {
        log := log + [Called(env.exec, Provider)];
        ok := env.provider;
      }
      executions := executions[env.exec := executions[env.exec].(status := if ok then Succeeded else Failed)];
      callers := callers[c := Caller(p, Left)];
      r := Ran(env.exec, ok);
    }

    // ----- approvals

    method Decide(h: HandlerId, org: OrgId, a: ApprovalId, d: Decision, now: int) returns (v: Verdict)
      requires h !in handlers && clock <= now && (d.Approved? || d.Rejected? || d.Cancelled?)
      modifies this
      ensures State() == DecideStep(old(State()), h, org, a, d, now)
      ensures v == Verdicted(old(approvals), org, a, now)
      ensures v.NotFound? <==> a !in old(approvals) || old(approvals)[a].org != org
      ensures v.AlreadyDecided? <==> !v.NotFound? && !old(approvals)[a].status.Pending?
      ensures v.TooLate? <==> !v.NotFound? && old(approvals)[a].status.Pending? && old(approvals)[a].expiresAt < now
      ensures approvals ==
        if v.Done? then old(approvals)[a := old(approvals)[a].(status := d, decider := Some(h))]
        else if v.TooLate? then old(approvals)[a := old(approvals)[a].(status := Expired)]
        else old(approvals)
    {
      clock := now;
      if a !in approvals || approvals[a].org != org { return NotFound; }
      if !approvals[a].status.Pending? { return AlreadyDecided; }
      if now > approvals[a].expiresAt {
        approvals := approvals[a := approvals[a].(status := Expired)];
        return TooLate;
      }
      approvals := approvals[a := approvals[a].(status := d, decider := Some(h))];
      log := log + [Decided(a, d, now, org)];
      handlers := handlers[h := Handler(d == Approved, a, {}, if d == Cancelled then Free else Unread)];
      v := Done;
    }

    /** One UPDATE over the table; `n` counts the rows it closes. */
    method ExpirePending(now: int) returns (n: nat)
      requires clock <= now
      modifies this
      ensures State() == Apply(old(State()), Step.ExpirePending(now))
      ensures approvals.Keys == old(approvals).Keys && executions == old(executions)
      ensures forall a :: a in approvals ==>
        (approvals[a] == if old(approvals)[a].status.Pending? && old(approvals)[a].expiresAt < now
                         then old(approvals)[a].(status := Expired) else old(approvals)[a])
      ensures n == |set a | a in approvals && approvals[a] != old(approvals)[a]|
    {
      var due := set a | a in approvals && approvals[a].status.Pending? && approvals[a].expiresAt < now;
      n := |due|;
      approvals, clock := map a | a in approvals :: if a in due then approvals[a].(status := Expired) else approvals[a], now;
      assert approvals == AfterExpiry(old(approvals), now);
      assert due == set a | a in approvals && approvals[a] != old(approvals)[a];
    }

    /** Behind a granted approval: the checks again, then the call, unless the row has succeeded already. */
    method ExecuteApproved(h: HandlerId, e: ExecId, env: RowEnv)
      requires Takes(State(), h, e)
      modifies this
      ensures State() == Run(old(State()), RowSteps(h, e, env)) && approvals == old(approvals)
      ensures
        var row := old(executions)[e];
        var tried, calls := row.tool.WebSearch?, env.check.Allowed? && !row.status.Succeeded?;
        && log == old(log) + (if calls && tried then [Called(e, Search)] else [])
                  + (if calls && !(tried && env.search) then [Called(e, Provider)] else [])
        && executions == old(executions)[e := row.(status :=
             if calls then (if (tried && env.search) || env.provider then Succeeded else Failed)
             else if env.check.Denied? then Failed else row.status)]
    {
      hide Apply, Run, RowSteps;
      RowRun(State(), h, e, env);
      handlers := handlers[h := handlers[h].(todo := handlers[h].todo - {e})];
      if env.check.Broken? { return; }
      if env.check.Denied? {
        executions := executions[e := executions[e].(status := Failed)];
        return;
      }
      if executions[e].status.Succeeded? { return; }
      executions := executions[e := executions[e].(status := Running)];
      var ok := executions[e].tool.WebSearch? && env.search;
      if executions[e].tool.WebSearch? { log := log + [Called(e, Search)]; }
      if !ok {
        log := log + [Called(e, Provider)];
        ok := env.provider;
      }
      executions := executions[e := executions[e].(status := if ok then Succeeded else Failed)];
    }

    /** A decision and the query for the rows of the approval, which may fail and then lists none. */
    method DecideAndList(h: HandlerId, org: OrgId, a: ApprovalId, d: Decision, now: int, listed: bool) returns (v: Verdict)
      requires Valid() && h !in handlers && clock <= now && (d.Approved? || d.Rejected?)
      modifies this
      ensures Valid() && v == Verdicted(old(approvals), org, a, now) && executions == old(executions)
      ensures v.NotFound? <==> a !in old(approvals) || old(approvals)[a].org != org
      ensures v.Done? <==> !v.NotFound? && old(approvals)[a].status.Pending? && now <= old(approvals)[a].expiresAt
      ensures approvals ==
        if v.Done? then old(approvals)[a := old(approvals)[a].(status := d, decider := Some(h))]
        else if v.TooLate? then old(approvals)[a := old(approvals)[a].(status := Expired)]
        else old(approvals)
      ensures
        var decision := if d.Approved? then Step.Approve(h, org, a, now) else Step.Reject(h, org, a, now);
        if v.Done?
        then State() == Queried(old(State()), h, decision, listed) && log == old(log) + [Decided(a, d, now, org)] && h in handlers
             && handlers[h] == Handler(d.Approved?, a, if listed then RowsOf(executions, a) else {}, Free)
        else State() == Apply(old(State()), decision) && log == old(log)
    {
      hide Inv, RowsOf;
      ghost var decision := if d.Approved? then Step.Approve(h, org, a, now) else Step.Reject(h, org, a, now);
      HandlerStepKeepsInv(State(), decision);
      v := Decide(h, org, a, d, now);
      if v.Done? {
        HandlerStepKeepsInv(State(), ListRows(h, listed));
        handlers := handlers[h := handlers[h].(todo := if listed then RowsOf(executions, a) else {}, work := Free)];
      }
    }

    /** Grants the approval and treats its rows, in the order in which the query returns them, or none if it fails. */
    method Approve(h: HandlerId, org: OrgId, a: ApprovalId, now: int, listed: bool, rows: seq<ExecId>, env: ExecId -> RowEnv)
        returns (v: Verdict)
      requires Valid() && h !in handlers && clock <= now && Lists(rows, if listed then RowsOf(executions, a) else {})
      modifies this
      ensures Valid() && v == Verdicted(old(approvals), org, a, now)
      ensures v.NotFound? <==> a !in old(approvals) || old(approvals)[a].org != org
      ensures v.Done? <==> !v.NotFound? && old(approvals)[a].status.Pending? && now <= old(approvals)[a].expiresAt
      ensures approvals ==
        if v.Done? then old(approvals)[a := old(approvals)[a].(status := Approved, decider := Some(h))]
        else if v.TooLate? then old(approvals)[a := old(approvals)[a].(status := Expired)]
        else old(approvals)
      ensures v.Done? ==>
        State() == Run(Queried(old(State()), h, Step.Approve(h, org, a, now), listed), TreatSteps(h, rows, env))
        && h in handlers && handlers[h].todo == {} && handlers[h].work.Free?
      ensures !v.Done? ==> State() == Apply(old(State()), Step.Approve(h, org, a, now)) && log == old(log)
    {
      hide Run, Inv, RowSteps, TreatSteps, Apply, Queried, RowsOf, Verdicted;
      v := DecideAndList(h, org, a, Approved, now, listed);
      if !v.Done? { return; }
      ghost var granted := State();
      var i := 0;
      RunOfNothing(granted);
      NothingToTreat(h, env);
      while i < |rows|
        invariant 0 <= i <= |rows|
        invariant State() == Run(granted, TreatSteps(h, rows[..i], env)) && Valid() && approvals == granted.approvals
        invariant h in handlers && handlers[h].approving && handlers[h].work.Free?
        invariant handlers[h].todo == set k | i <= k < |rows| :: rows[k]
      {
        ghost var before := State();
        TodoRowExists(before, h, rows[i]);
        RowRun(before, h, rows[i], env(rows[i]));
        RunKeepsInv(before, RowSteps(h, rows[i], env(rows[i])));
        ExecuteApproved(h, rows[i], env(rows[i]));
        TreatSnoc(h, rows, i, env);
        RunConcat(granted, TreatSteps(h, rows[..i], env), RowSteps(h, rows[i], env(rows[i])));
        i := i + 1;
      }
      assert rows[..i] == rows;
    }

    /** Marks one row of a refused approval failed. */
    method FailNext(h: HandlerId, e: ExecId)
      requires Valid() && h in handlers && !handlers[h].approving && handlers[h].work.Free? && e in handlers[h].todo
      modifies this
      ensures Valid() && State() == Apply(old(State()), FailRow(h, e)) && approvals == old(approvals) && log == old(log)
      ensures e in old(executions) && executions == old(executions)[e := old(executions)[e].(status := Failed)]
      ensures handlers == old(handlers)[h := old(handlers)[h].(todo := old(handlers)[h].todo - {e})]
    {
      hide Inv;
      TodoRowExists(State(), h, e);
      FailStep(State(), h, e);
      HandlerStepKeepsInv(State(), FailRow(h, e));
      executions := executions[e := executions[e].(status := Failed)];
      handlers := handlers[h := handlers[h].(todo := handlers[h].todo - {e})];
    }

    /** Refuses the approval and marks its rows failed. */
    method Reject(h: HandlerId, org: OrgId, a: ApprovalId, now: int, listed: bool, rows: seq<ExecId>) returns (v: Verdict)
      requires Valid() && h !in handlers && clock <= now && Lists(rows, if listed then RowsOf(executions, a) else {})
      modifies this
      ensures Valid() && v == Verdicted(old(approvals), org, a, now)
      ensures v.NotFound? <==> a !in old(approvals) || old(approvals)[a].org != org
      ensures v.Done? <==> !v.NotFound? && old(approvals)[a].status.Pending? && now <= old(approvals)[a].expiresAt
      ensures approvals ==
        if v.Done? then old(approvals)[a := old(approvals)[a].(status := Rejected, decider := Some(h))]
        else if v.TooLate? then old(approvals)[a := old(approvals)[a].(status := Expired)]
        else old(approvals)
      ensures v.Done? ==>
        State() == Run(Queried(old(State()), h, Step.Reject(h, org, a, now), listed), FailSteps(h, rows))
        && (forall e :: e in executions ==>
              (e in old(executions)
               && executions[e] == old(executions)[e].(status := if e in rows then Failed else old(executions)[e].status)))
        && executions.Keys == old(executions).Keys && log == old(log) + [Decided(a, Rejected, now, org)]
      ensures !v.Done? ==> State() == Apply(old(State()), Step.Reject(h, org, a, now)) && log == old(log)
    {
      hide Run, Inv, Apply, Queried, RowsOf, Verdicted;
      v := DecideAndList(h, org, a, Rejected, now, listed);
      if !v.Done? { return; }
      ghost var refused := State();
      var i := 0;
      RunOfNothing(refused);
      while i < |rows|
        invariant 0 <= i <= |rows|
        invariant State() == Run(refused, FailSteps(h, rows)[..i]) && Valid() && approvals == refused.approvals
        invariant h in handlers && !handlers[h].approving && handlers[h].work.Free?
        invariant handlers[h].todo == set k | i <= k < |rows| :: rows[k]
        invariant executions.Keys == old(executions).Keys && log == refused.log
        invariant forall e :: e in executions ==>
          executions[e] == old(executions)[e].(status := if e in rows[..i] then Failed else old(executions)[e].status)
      {
        FailNext(h, rows[i]);
        RunSnoc(refused, FailSteps(h, rows)[..i], FailRow(h, rows[i]));
        FailSnoc(h, rows, i);
        i := i + 1;
      }
      assert FailSteps(h, rows)[..i] == FailSteps(h, rows);
    }

    /** Withdraws the approval; its rows are left as they are. */
    method Cancel(h: HandlerId, org: OrgId, a: ApprovalId, now: int) returns (v: Verdict)
      requires Valid() && h !in handlers && clock <= now
      modifies this
      ensures Valid() && v == Verdicted(old(approvals), org, a, now)
      ensures v.NotFound? <==> a !in old(approvals) || old(approvals)[a].org != org
      ensures v.Done? <==> !v.NotFound? && old(approvals)[a].status.Pending? && now <= old(approvals)[a].expiresAt
      ensures approvals ==
        if v.Done? then old(approvals)[a := old(approvals)[a].(status := Cancelled, decider := Some(h))]
        else if v.TooLate? then old(approvals)[a := old(approvals)[a].(status := Expired)]
        else old(approvals)
      ensures State() == Apply(old(State()), Step.Cancel(h, org, a, now)) && executions == old(executions)
    {
      HandlerStepKeepsInv(State(), Step.Cancel(h, org, a, now));
      v := Decide(h, org, a, Cancelled, now);
    }
  }

  function InsertsOf(s: State, c: CallerId, env: Env): State {
    Apply(Apply(Apply(s, Ask(c, env.approval, env.now, env.askOk)), InsertGated(c, env.exec, env.insertOk)),
          InsertPlain(c, env.exec, env.insertOk))
  }

  lemma LookupStep(s: State, c: CallerId, p: Params, pass: bool)
    requires c !in s.callers
    ensures Apply(Apply(s, Begin(c, p)), Lookup(c, pass)) ==
      s.(callers := s.callers[c := Caller(p, if KeyKnown(s.executions, p.org, p.key) || !pass then Left else Checked)])
  {
  }

  lemma LeftStays(s: State, c: CallerId, env: Env)
    requires c in s.callers && s.callers[c].pc.Left?
    ensures InsertsOf(s, c, env) == s && Run(s, HeldSteps(c, env)) == s
  {
    hide Apply, Run;
    LeftIgnoresInserts(s, c, env);
    LeftIgnores(s, c, env);
    FourSteps(s, Admit(c, env.access), CallerSearch(c, env.search), CallerProvider(c, env.provider), CallerFinish(c));
  }

  lemma LeftIgnoresInserts(s: State, c: CallerId, env: Env)
    requires c in s.callers && s.callers[c].pc.Left?
    ensures Apply(s, Ask(c, env.approval, env.now, env.askOk)) == s
    ensures Apply(s, InsertGated(c, env.exec, env.insertOk)) == s && Apply(s, InsertPlain(c, env.exec, env.insertOk)) == s
  {
    hide KeyTaken, KeyKnown;
  }

  lemma GatedInserts(s: State, c: CallerId, env: Env)
    requires c in s.callers && s.callers[c].pc.Checked? && s.callers[c].p.gated
    requires env.approval !in s.approvals && env.exec !in s.executions && s.clock <= env.now
    ensures
      var p, left := s.callers[c].p, AtPc(s, c, Left);
      InsertsOf(s, c, env) ==
        if !env.askOk then left
        else
          var asked := left.(approvals := s.approvals[env.approval := Approval(p.org, Pending, env.now + DAY, None)], clock := env.now);
          if !env.insertOk || KeyTaken(s.executions, p.key) then asked
          else asked.(executions := s.executions[env.exec := Execution(p.org, p.key, p.tool, ApprovalRequired, Some(env.approval), c)])
  {
    hide KeyTaken, KeyKnown;
    assert s.callers[c := s.callers[c].(pc := Asked(env.approval))][c := s.callers[c].(pc := Left)] == s.callers[c := s.callers[c].(pc := Left)];
  }

  lemma PlainInserts(s: State, c: CallerId, env: Env)
    requires c in s.callers && s.callers[c].pc.Checked? && !s.callers[c].p.gated && env.exec !in s.executions
    ensures
      var p := s.callers[c].p;
      InsertsOf(s, c, env) ==
        if !env.insertOk || KeyTaken(s.executions, p.key) then AtPc(s, c, Left)
        else AtPc(s, c, Holding(env.exec)).(executions := s.executions[env.exec := Execution(p.org, p.key, p.tool, Running, None, c)])
  {
    hide KeyTaken, KeyKnown;
  }

  /** What becomes of a running row: refused by the browser, or called once or twice and closed. */
  lemma HeldRun(s: State, c: CallerId, env: Env)
    requires c in s.callers && s.callers[c].pc.Holding? && s.callers[c].pc.exec in s.executions
    ensures
      var e, tool, left := s.callers[c].pc.exec, s.callers[c].p.tool, AtPc(s, c, Left);
      Run(s, HeldSteps(c, env)) ==
        if tool.Browser? && !env.access then left.(executions := WithStatus(s.executions, e, Failed))
        else left.(executions := WithStatus(s.executions, e, if Works(tool, env) then Succeeded else Failed),
                   log := s.log + CallsOf(tool, e, env))
  {
    hide Apply, Run, WithStatus;
    var e, tool := s.callers[c].pc.exec, s.callers[c].p.tool;
    FourSteps(s, Admit(c, env.access), CallerSearch(c, env.search), CallerProvider(c, env.provider), CallerFinish(c));
    if tool.Browser? && !env.access {
      RefusedSteps(s, c);
      LeftIgnores(AtPc(s, c, Left).(executions := WithStatus(s.executions, e, Failed)), c, env);
    } else {
      AdmitStays(s, c, env.access);
      SearchStep(s, c, env.search);
      if tool.WebSearch? && env.search {
        var answered := AtPc(s, c, Answered(e, true)).(log := s.log + [Called(e, Search)]);
        AnsweredSteps(answered, c, env.provider);
        TwicePlaced(s.callers, c, Caller(s.callers[c].p, Answered(e, true)), Caller(s.callers[c].p, Left));
      } else {
        var tried := if tool.WebSearch? then AtPc(s, c, Searched(e)).(log := s.log + [Called(e, Search)]) else s;
        ProviderStep(tried, c, env.provider);
        var answered := AtPc(tried, c, Answered(e, env.provider)).(log := tried.log + [Called(e, Provider)]);
        AnsweredSteps(answered, c, env.provider);
        TwicePlaced(s.callers, c, Caller(s.callers[c].p, Searched(e)), Caller(s.callers[c].p, Answered(e, env.provider)));
        TwicePlaced(s.callers, c, Caller(s.callers[c].p, Answered(e, env.provider)), Caller(s.callers[c].p, Left));
      }
    }
  }

  lemma TwicePlaced<K, V>(m: map<K, V>, k: K, first: V, second: V)
    ensures m[k := first][k := second] == m[k := second]
  {
  }

  lemma RefusedSteps(s: State, c: CallerId)
    requires c in s.callers && s.callers[c].pc.Holding? && s.callers[c].p.tool.Browser?
    ensures Apply(s, Admit(c, false)) == AtPc(s, c, Left).(executions := WithStatus(s.executions, s.callers[c].pc.exec, Failed))
  {
  }

  lemma LeftIgnores(s: State, c: CallerId, env: Env)
    requires c in s.callers && s.callers[c].pc.Left?
    ensures Apply(s, Admit(c, env.access)) == s && Apply(s, CallerSearch(c, env.search)) == s
    ensures Apply(s, CallerProvider(c, env.provider)) == s && Apply(s, CallerFinish(c)) == s
  {
  }

  lemma AdmitStays(s: State, c: CallerId, ok: bool)
    requires c in s.callers && s.callers[c].pc.Holding? && !(s.callers[c].p.tool.Browser? && !ok)
    ensures Apply(s, Admit(c, ok)) == s
  {
  }

  lemma SearchStep(s: State, c: CallerId, ok: bool)
    requires c in s.callers && s.callers[c].pc.Holding?
    ensures
      var e := s.callers[c].pc.exec;
      Apply(s, CallerSearch(c, ok)) ==
        if s.callers[c].p.tool.WebSearch?
        then AtPc(s, c, if ok then Answered(e, true) else Searched(e)).(log := s.log + [Called(e, Search)]) else s
  {
  }

  lemma ProviderStep(s: State, c: CallerId, ok: bool)
    requires c in s.callers && (s.callers[c].pc.Searched? || (s.callers[c].pc.Holding? && !s.callers[c].p.tool.WebSearch?))
    ensures
      var e := s.callers[c].pc.exec;
      Apply(s, CallerProvider(c, ok)) == AtPc(s, c, Answered(e, ok)).(log := s.log + [Called(e, Provider)])
  {
  }

  lemma AnsweredSteps(s: State, c: CallerId, ok: bool)
    requires c in s.callers && s.callers[c].pc.Answered?
    ensures Apply(s, CallerProvider(c, ok)) == s
    ensures
      var pc := s.callers[c].pc;
      Apply(s, CallerFinish(c)) ==
        AtPc(s, c, Left).(executions := WithStatus(s.executions, pc.exec, if pc.ok then Succeeded else Failed))
  {
  }

  predicate Works(tool: Tool, env: Env) { (tool.WebSearch? && env.search) || env.provider }

  function CallsOf(tool: Tool, e: ExecId, env: Env): seq<Event> {
    (if tool.WebSearch? then [Called(e, Search)] else []) +
    (if tool.WebSearch? && env.search then [] else [Called(e, Provider)])
  }

  // ----- one approved row

  predicate Takes(s: State, h: HandlerId, e: ExecId) {
    h in s.handlers && s.handlers[h].approving && s.handlers[h].work.Free? && e in s.handlers[h].todo && e in s.executions
  }

  predicate Lists(rows: seq<ExecId>, ids: set<ExecId>) {
    (forall i, j :: 0 <= i < j < |rows| ==> rows[i] != rows[j]) && ids == set i | 0 <= i < |rows| :: rows[i]
  }

  lemma RunOfNothing(s: State)
    ensures Run(s, []) == s
  {
  }

  lemma FailStep(s: State, h: HandlerId, e: ExecId)
    requires h in s.handlers && !s.handlers[h].approving && s.handlers[h].work.Free? && e in s.handlers[h].todo && e in s.executions
    ensures Apply(s, FailRow(h, e)) == s.(executions := s.executions[e := s.executions[e].(status := Failed)],
                                         handlers := s.handlers[h := s.handlers[h].(todo := s.handlers[h].todo - {e})])
  {
  }

  /** What becomes of a row behind its grant. */
  lemma RowRun(s: State, h: HandlerId, e: ExecId, env: RowEnv)
    requires Takes(s, h, e)
    ensures
      var x, rest := s.executions[e], s.(handlers := s.handlers[h := s.handlers[h].(todo := s.handlers[h].todo - {e})]);
      Run(s, RowSteps(h, e, env)) ==
        if env.check.Broken? then rest
        else if env.check.Denied? then rest.(executions := s.executions[e := x.(status := Failed)])
        else if x.status.Succeeded? then rest
        else
          var tried := x.tool.WebSearch?;
          var ok := (tried && env.search) || env.provider;
          rest.(executions := s.executions[e := x.(status := if ok then Succeeded else Failed)],
                log := s.log + (if tried then [Called(e, Search)] else []) + (if tried && env.search then [] else [Called(e, Provider)]))
  {
    hide Apply, Run;
    FourSteps(s, TakeRow(h, e, env.check), HandlerSearch(h, env.search), HandlerProvider(h, env.provider), HandlerFinish(h));
    TakeStep(s, h, e, env.check);
    var taken := Apply(s, TakeRow(h, e, env.check));
    if !env.check.Allowed? || s.executions[e].status.Succeeded? {
      FreeIgnores(taken, h, env);
    } else {
      TakenRun(taken, h, env);
      var x, rest := s.executions[e], s.handlers[h].(todo := s.handlers[h].todo - {e});
      var ok := (x.tool.WebSearch? && env.search) || env.provider;
      TwicePlaced(s.handlers, h, rest.(work := Ready(e)), rest);
      TwicePlaced(s.executions, e, x.(status := Running), x.(status := if ok then Succeeded else Failed));
    }
  }

  /** The three statements behind the start of a row. */
  lemma TakenRun(s: State, h: HandlerId, env: RowEnv)
    requires h in s.handlers && s.handlers[h].work.Ready? && s.handlers[h].work.exec in s.executions
    ensures
      var e := s.handlers[h].work.exec;
      var tried := s.executions[e].tool.WebSearch?;
      var ok := (tried && env.search) || env.provider;
      Apply(Apply(Apply(s, HandlerSearch(h, env.search)), HandlerProvider(h, env.provider)), HandlerFinish(h)) ==
        AtWork(s, h, Free).(executions := s.executions[e := s.executions[e].(status := if ok then Succeeded else Failed)],
                            log := s.log + (if tried then [Called(e, Search)] else [])
                                   + (if tried && env.search then [] else [Called(e, Provider)]))
  {
    hide Apply;
    var e, r := s.handlers[h].work.exec, s.handlers[h];
    HandlerSearchStep(s, h, env.search);
    if s.executions[e].tool.WebSearch? && env.search {
      AnsweredRow(AtWork(s, h, Got(e, true)).(log := s.log + [Called(e, Search)]), h, env.provider);
      TwicePlaced(s.handlers, h, r.(work := Got(e, true)), r.(work := Free));
    } else {
      var tried := if s.executions[e].tool.WebSearch? then AtWork(s, h, Tried(e)).(log := s.log + [Called(e, Search)]) else s;
      HandlerProviderStep(tried, h, env.provider);
      AnsweredRow(AtWork(tried, h, Got(e, env.provider)).(log := tried.log + [Called(e, Provider)]), h, env.provider);
      TwicePlaced(s.handlers, h, r.(work := Tried(e)), r.(work := Got(e, env.provider)));
      TwicePlaced(s.handlers, h, r.(work := Got(e, env.provider)), r.(work := Free));
    }
  }

  lemma TakeStep(s: State, h: HandlerId, e: ExecId, check: Recheck)
    requires Takes(s, h, e)
    ensures
      var x, rest := s.executions[e], s.handlers[h].(todo := s.handlers[h].todo - {e});
      var taken := s.(handlers := s.handlers[h := rest]);
      Apply(s, TakeRow(h, e, check)) ==
        if check.Broken? || (check.Allowed? && x.status.Succeeded?) then taken
        else if check.Denied? then taken.(executions := s.executions[e := x.(status := Failed)])
        else s.(executions := s.executions[e := x.(status := Running)], handlers := s.handlers[h := rest.(work := Ready(e))])
  {
  }

  lemma FreeIgnores(s: State, h: HandlerId, env: RowEnv)
    requires h in s.handlers && s.handlers[h].work.Free?
    ensures Apply(s, HandlerSearch(h, env.search)) == s && Apply(s, HandlerProvider(h, env.provider)) == s
    ensures Apply(s, HandlerFinish(h)) == s
  {
  }

  lemma HandlerSearchStep(s: State, h: HandlerId, ok: bool)
    requires h in s.handlers && s.handlers[h].work.Ready? && s.handlers[h].work.exec in s.executions
    ensures
      var e := s.handlers[h].work.exec;
      Apply(s, HandlerSearch(h, ok)) ==
        if s.executions[e].tool.WebSearch?
        then AtWork(s, h, if ok then Got(e, true) else Tried(e)).(log := s.log + [Called(e, Search)]) else s
  {
  }

  lemma HandlerProviderStep(s: State, h: HandlerId, ok: bool)
    requires h in s.handlers
    requires var w := s.handlers[h].work;
      w.Tried? || (w.Ready? && w.exec in s.executions && !s.executions[w.exec].tool.WebSearch?)
    ensures
      var e := s.handlers[h].work.exec;
      Apply(s, HandlerProvider(h, ok)) == AtWork(s, h, Got(e, ok)).(log := s.log + [Called(e, Provider)])
  {
  }

  lemma AnsweredRow(s: State, h: HandlerId, ok: bool)
    requires h in s.handlers && s.handlers[h].work.Got? && s.handlers[h].work.exec in s.executions
    ensures Apply(s, HandlerProvider(h, ok)) == s
    ensures
      var e := s.handlers[h].work.exec;
      Apply(s, HandlerFinish(h)) ==
        AtWork(s, h, Free).(executions :=
          s.executions[e := s.executions[e].(status := if s.handlers[h].work.ok then Succeeded else Failed)])
  {
  }
}
