/** What the protocol does not give: a row that comes too late for its approval's decision is never treated. */
module ToolStranding {
  import opened Options
  import opened ToolProtocol
  import opened ToolSafety
  import opened ToolService

  /** No decision is possible any more: it has been made, or it is too late for one. */
  predicate Closed(s: State, a: ApprovalId)
    requires a in s.approvals
  {
    !s.approvals[a].status.Pending? || s.clock > s.approvals[a].expiresAt
  }

  /** No handler run that decided this approval has still to query its rows. */
  predicate NoQueryAhead(s: State, a: ApprovalId) {
    forall h :: h in s.handlers && s.handlers[h].approval == a ==> !s.handlers[h].work.Unread?
  }

  predicate HandlerHolds(h: Handler, e: ExecId) { e in h.todo || (Busy(h.work) && h.work.exec == e) }

  predicate CallerHolds(c: Caller, e: ExecId) {
    (c.pc.Holding? || c.pc.Searched? || c.pc.Answered?) && c.pc.exec == e
  }

  /** Nobody is at work on the row, and nobody will find it. */
  predicate Stranded(s: State, e: ExecId) {
    && e in s.executions && s.executions[e].approval.Some?
    && s.executions[e].approval.value in s.approvals
    && Closed(s, s.executions[e].approval.value) && NoQueryAhead(s, s.executions[e].approval.value)
    && (forall h :: h in s.handlers ==> !HandlerHolds(s.handlers[h], e))
    && (forall c :: c in s.callers ==> !CallerHolds(s.callers[c], e))
  }

  predicate SameRow(s: State, t: State, e: ExecId)
    requires e in s.executions
  {
    e in t.executions && t.executions[e] == s.executions[e]
    && (Called(e, Search) in t.log <==> Called(e, Search) in s.log)
    && (Called(e, Provider) in t.log <==> Called(e, Provider) in s.log)
  }

  lemma CallerStepLeavesStranded(s: State, step: Step, e: ExecId)
    requires Stranded(s, e) && !ByHandler(step)
    ensures Stranded(CallerStep(s, step), e) && SameRow(s, CallerStep(s, step), e)
  {
    hide KeyTaken, KeyKnown;
    var x, u := s.executions[e].approval.value, CallerStep(s, step);
    assert u.handlers == s.handlers;
    hide HandlerHolds;
    assert Closed(u, x) && NoQueryAhead(u, x);
    hide Closed, NoQueryAhead;
  }

  lemma HandlerStepLeavesStranded(s: State, step: Step, e: ExecId)
    requires Stranded(s, e) && ByHandler(step)
    ensures Stranded(HandlerStep(s, step), e) && SameRow(s, HandlerStep(s, step), e)
  {
    hide Stranded, SameRow, DecideStep, AfterExpiry;
    match step {
      case Approve(h, org, a, now) => DecisionLeavesStranded(s, h, org, a, Approved, now, e);
      case Reject(h, org, a, now) => DecisionLeavesStranded(s, h, org, a, Rejected, now, e);
      case Cancel(h, org, a, now) => DecisionLeavesStranded(s, h, org, a, Cancelled, now, e);
      case ExpirePending(now) => ExpiryLeavesStranded(s, now, e);
      case ListRows(h, ok) => ListingLeavesStranded(s, h, ok, e);
      case TakeRow(h, f, check) => TakingLeavesStranded(s, h, f, check, e);
      case _ => TreatingLeavesStranded(s, step, e);
    }
  }

  lemma DecisionLeavesStranded(s: State, h: HandlerId, org: OrgId, a: ApprovalId, d: Decision, now: int, e: ExecId)
    requires Stranded(s, e)
    ensures Stranded(DecideStep(s, h, org, a, d, now), e) && SameRow(s, DecideStep(s, h, org, a, d, now), e)
  {
    var x, u := s.executions[e].approval.value, DecideStep(s, h, org, a, d, now);
    if now >= s.clock && h !in s.handlers {
      assert x == a ==> !Verdicted(s.approvals, org, a, now).Done?;
      assert Closed(u, x);
      hide Closed, Verdicted, AfterDecide;
      assert NoQueryAhead(u, x);
    }
  }

  lemma ExpiryLeavesStranded(s: State, now: int, e: ExecId)
    requires Stranded(s, e)
    ensures Stranded(HandlerStep(s, Step.ExpirePending(now)), e) && SameRow(s, HandlerStep(s, Step.ExpirePending(now)), e)
  {
  }

  lemma ListingLeavesStranded(s: State, h: HandlerId, ok: bool, e: ExecId)
    requires Stranded(s, e)
    ensures Stranded(HandlerStep(s, ListRows(h, ok)), e) && SameRow(s, HandlerStep(s, ListRows(h, ok)), e)
  {
  }

  lemma TakingLeavesStranded(s: State, h: HandlerId, f: ExecId, check: Recheck, e: ExecId)
    requires Stranded(s, e)
    ensures var u := HandlerStep(s, TakeRow(h, f, check)); Stranded(u, e) && SameRow(s, u, e)
  {
    var x, u := s.executions[e].approval.value, HandlerStep(s, TakeRow(h, f, check));
    assert Closed(u, x) && u.callers == s.callers && u.log == s.log;
    hide Closed, CallerHolds;
    assert NoQueryAhead(u, x);
    hide NoQueryAhead;
  }

  lemma TreatingLeavesStranded(s: State, step: Step, e: ExecId)
    requires Stranded(s, e)
    requires step.FailRow? || step.HandlerSearch? || step.HandlerProvider? || step.HandlerFinish?
    ensures Stranded(HandlerStep(s, step), e) && SameRow(s, HandlerStep(s, step), e)
  {
    var x, u := s.executions[e].approval.value, HandlerStep(s, step);
    assert Closed(u, x) && u.callers == s.callers;
    hide Closed, CallerHolds, DecideStep, AfterExpiry, RowsOf;
    assert NoQueryAhead(u, x);
    hide NoQueryAhead;
  }

  /** Whatever happens later, the row keeps its status and is called no more. */
  lemma {:induction false} StrandedForever(s: State, steps: seq<Step>, e: ExecId)
    requires Stranded(s, e)
    ensures Stranded(Run(s, steps), e) && SameRow(s, Run(s, steps), e)
    decreases |steps|
  {
    hide Stranded, SameRow;
    StandsStill(s, e);
    if steps != [] {
      var before, step := Run(s, steps[..|steps| - 1]), steps[|steps| - 1];
      StrandedForever(s, steps[..|steps| - 1], e);
      if ByHandler(step) { HandlerStepLeavesStranded(before, step, e); } else { CallerStepLeavesStranded(before, step, e); }
      SameRowTwice(s, before, Apply(before, step), e);
    }
  }

  lemma StandsStill(s: State, e: ExecId)
    requires Stranded(s, e)
    ensures e in s.executions && SameRow(s, s, e)
  {
  }

  lemma SameRowTwice(s: State, t: State, u: State, e: ExecId)
    requires e in s.executions && SameRow(s, t, e) && SameRow(t, u, e)
    ensures SameRow(s, u, e)
  {
  }

  // ----- which rows are stranded

  /** A gated Execute call stands between the insert of its approval and that of its row. */
  predicate AboutToInsert(s: State, c: CallerId, e: ExecId) {
    c in s.callers && s.callers[c].pc.Asked? && e !in s.executions && !KeyTaken(s.executions, s.callers[c].p.key)
  }

  function Inserted(s: State, c: CallerId, e: ExecId): State { Apply(s, InsertGated(c, e, true)) }

  lemma InsertedState(s: State, c: CallerId, e: ExecId)
    requires Inv(s) && AboutToInsert(s, c, e)
    ensures var p, a := s.callers[c].p, s.callers[c].pc.approval;
      a in s.approvals
      && Inserted(s, c, e) == AtPc(s, c, Left).(executions := s.executions[e :=
           Execution(p.org, p.key, p.tool, ApprovalRequired, Some(a), c)])
  {
    hide Inv, KeyTaken;
    AskedApprovalExists(s, c);
  }

  /** The new row is stranded exactly when its approval can no longer be decided and no query for its rows is ahead. */
  lemma InsertStrandsIff(s: State, c: CallerId, e: ExecId)
    requires Inv(s) && AboutToInsert(s, c, e)
    ensures var a := s.callers[c].pc.approval;
      a in s.approvals && (Stranded(Inserted(s, c, e), e) <==> Closed(s, a) && NoQueryAhead(s, a))
  {
    hide Apply, KeyTaken, RowOk, ApprovalOk, EventOk;
    InsertedState(s, c, e);
    var a, t := s.callers[c].pc.approval, Inserted(s, c, e);
    forall h | h in t.handlers ensures !HandlerHolds(t.handlers[h], e) { assert HandlerOk(s, h); }
    forall d | d in t.callers ensures !CallerHolds(t.callers[d], e) { assert d != c ==> CallerOk(s, d); }
    assert NoQueryAhead(t, a) <==> NoQueryAhead(s, a);
  }

  /** The row waits for a decision, or for the handler run behind one. */
  predicate Waiting(s: State, e: ExecId) { e in s.executions && s.executions[e].status.ApprovalRequired? }

  predicate OnNoList(s: State, e: ExecId) { forall h :: h in s.handlers ==> e !in s.handlers[h].todo }

  /** Nobody works on a waiting row, so it is stranded exactly when it is on no list and will not be put on one. */
  lemma WaitingStrandedIff(s: State, e: ExecId)
    requires Inv(s) && Waiting(s, e)
    ensures s.executions[e].approval.Some? && s.executions[e].approval.value in s.approvals
    ensures var a := s.executions[e].approval.value;
      Stranded(s, e) <==> Closed(s, a) && NoQueryAhead(s, a) && OnNoList(s, e)
  {
    hide Count, MayCall, ApprovalOk, EventOk, Closed, NoQueryAhead;
    assert RowOk(s, e);
    hide RowOk;
    forall h | h in s.handlers ensures HandlerHolds(s.handlers[h], e) <==> e in s.handlers[h].todo { assert HandlerOk(s, h); }
    forall c | c in s.callers ensures !CallerHolds(s.callers[c], e) { assert CallerOk(s, c); }
  }

  /**
   * The exact condition, for every waiting row of every reachable state: whatever happens later, the row keeps
   * waiting and is not called, if and only if its approval can no longer be decided, no handler run that decided it
   * has its query for the rows ahead, and no handler run has the row on its list.
   */
  lemma KeepsWaitingIff(s: State, e: ExecId)
    requires Inv(s) && Waiting(s, e)
    ensures s.executions[e].approval.Some? && s.executions[e].approval.value in s.approvals
    ensures var a := s.executions[e].approval.value;
      (forall more :: SameRow(s, Run(s, more), e)) <==> Closed(s, a) && NoQueryAhead(s, a) && OnNoList(s, e)
  {
    hide Inv, Apply, Run, SameRow, Stranded, Closed, NoQueryAhead, OnNoList;
    WaitingStrandedIff(s, e);
    if Stranded(s, e) {
      forall more ensures SameRow(s, Run(s, more), e) { StrandedForever(s, more, e); }
    } else {
      var more := ServedBy(s, e);
      assert !SameRow(s, Run(s, more), e) by { ServedIsOther(s, Run(s, more), e); }
    }
  }

  lemma ServedIsOther(s: State, t: State, e: ExecId)
    requires Waiting(s, e) && e in t.executions && !Waiting(t, e)
    ensures !SameRow(s, t, e)
  {
  }

  /** Otherwise there is a continuation that serves the row. */
  lemma ServedBy(s: State, e: ExecId) returns (more: seq<Step>)
    requires Inv(s) && Waiting(s, e) && !Stranded(s, e)
    ensures e in Run(s, more).executions && !Waiting(Run(s, more), e)
  {
    hide Inv, Apply, Run, Stranded;
    WaitingStrandedIff(s, e);
    var a := s.executions[e].approval.value;
    if !OnNoList(s, e) {
      var h :| h in s.handlers && e in s.handlers[h].todo;
      more := ListServes(s, h, e);
    } else if !NoQueryAhead(s, a) {
      var h :| h in s.handlers && s.handlers[h].approval == a && s.handlers[h].work.Unread?;
      more := QueryServes(s, h, e);
    } else {
      var h := UnusedHandler(s.handlers);
      var grant := Step.Approve(h, s.approvals[a].org, a, s.clock);
      GrantStep(s, h, a);
      var rest := QueryServes(Apply(s, grant), h, e);
      more := [grant] + rest;
      RunConcat(s, [grant], rest);
      OneStep(s, grant);
    }
  }

  lemma OneStep(s: State, step: Step)
    ensures Run(s, [step]) == Apply(s, step)
  {
    RunOfNothing(s);
    RunSnoc(s, [], step);
    assert [] + [step] == [step];
  }

  lemma TwoSteps(s: State, first: Step, second: Step)
    ensures Run(s, [first, second]) == Apply(Apply(s, first), second)
  {
    hide Apply;
    OneStep(s, first);
    RunSnoc(s, [first], second);
    assert [first] + [second] == [first, second];
  }

  /** The exact condition at the insert: the approval could no longer be decided and no query for its rows was ahead. */
  lemma WaitsForGoodIff(s: State, c: CallerId, e: ExecId)
    requires Inv(s) && AboutToInsert(s, c, e)
    ensures var a, t := s.callers[c].pc.approval, Inserted(s, c, e);
      a in s.approvals && e in t.executions && t.executions[e].status.ApprovalRequired?
      && ((forall more :: SameRow(t, Run(t, more), e)) <==> Closed(s, a) && NoQueryAhead(s, a))
  {
    hide Inv, Apply, Run, SameRow, Stranded, Closed, NoQueryAhead, OnNoList;
    InsertedState(s, c, e);
    InsertStrandsIff(s, c, e);
    var t := Inserted(s, c, e);
    OneStep(s, InsertGated(c, e, true));
    RunKeepsInv(s, [InsertGated(c, e, true)]);
    WaitingStrandedIff(t, e);
    KeepsWaitingIff(t, e);
  }

  lemma UnusedHandler(handlers: map<HandlerId, Handler>) returns (h: HandlerId)
    ensures h !in handlers
  {
    h := UnusedId(handlers.Keys);
  }

  lemma {:induction false} UnusedId(ids: set<nat>) returns (n: nat)
    ensures forall i :: i in ids ==> i < n
    decreases |ids|
  {
    n := 0;
    if ids != {} {
      var i :| i in ids;
      var m := UnusedId(ids - {i});
      n := if i < m then m else i + 1;
      forall j | j in ids ensures j < n { if j != i { assert j in ids - {i}; } }
    }
  }

  lemma GrantStep(s: State, h: HandlerId, a: ApprovalId)
    requires a in s.approvals && h !in s.handlers && !Closed(s, a)
    ensures var u := Apply(s, Step.Approve(h, s.approvals[a].org, a, s.clock));
      h in u.handlers && u.handlers[h] == Handler(true, a, {}, Unread) && u.executions == s.executions
  {
  }

  /** The step that treats a row of the list. */
  function Treat(s: State, h: HandlerId, e: ExecId): Step
    requires h in s.handlers
  {
    if s.handlers[h].approving then TakeRow(h, e, Allowed) else FailRow(h, e)
  }

  lemma FreeHandlerTreats(s: State, h: HandlerId, e: ExecId)
    requires h in s.handlers && s.handlers[h].work.Free? && e in s.handlers[h].todo && Waiting(s, e)
    ensures e in Apply(s, Treat(s, h, e)).executions && !Waiting(Apply(s, Treat(s, h, e)), e)
  {
  }

  /** A query ahead finds the row, and the handler run goes on to treat it. */
  lemma QueryServes(s: State, h: HandlerId, e: ExecId) returns (more: seq<Step>)
    requires h in s.handlers && s.handlers[h].work.Unread?
    requires Waiting(s, e) && s.executions[e].approval == Some(s.handlers[h].approval)
    ensures e in Run(s, more).executions && !Waiting(Run(s, more), e)
  {
    var u := Apply(s, ListRows(h, true));
    assert e in RowsOf(s.executions, s.handlers[h].approval);
    hide Run;
    more := [ListRows(h, true), Treat(u, h, e)];
    TwoSteps(s, ListRows(h, true), Treat(u, h, e));
    hide Apply;
    FreeHandlerTreats(u, h, e);
  }

  /** A handler run that has the row on its list finishes the row it is at, if any, and then treats this one. */
  lemma ListServes(s: State, h: HandlerId, e: ExecId) returns (more: seq<Step>)
    requires Inv(s) && h in s.handlers && e in s.handlers[h].todo && Waiting(s, e)
    ensures e in Run(s, more).executions && !Waiting(Run(s, more), e)
  {
    hide Inv, Apply, Run;
    HandlerFacts(s, h);
    if s.handlers[h].work.Free? {
      more := [Treat(s, h, e)];
      OneStep(s, Treat(s, h, e));
      FreeHandlerTreats(s, h, e);
    } else {
      var work := FinishWork(s, h, e);
      var u := Run(s, work);
      more := work + [Treat(u, h, e)];
      RunSnoc(s, work, Treat(u, h, e));
      FreeHandlerTreats(u, h, e);
    }
  }

  lemma HandlerFacts(s: State, h: HandlerId)
    requires Inv(s) && h in s.handlers
    ensures s.handlers[h].work.Unread? ==> s.handlers[h].todo == {}
    ensures Busy(s.handlers[h].work) ==> s.handlers[h].work.exec in s.executions && s.handlers[h].work.exec !in s.handlers[h].todo
  {
    hide RowOk, CallerOk, ApprovalOk, EventOk;
    assert HandlerOk(s, h);
  }

  lemma FinishWork(s: State, h: HandlerId, e: ExecId) returns (more: seq<Step>)
    requires h in s.handlers && Busy(s.handlers[h].work) && s.handlers[h].work.exec in s.executions
    requires s.handlers[h].work.exec != e && e in s.handlers[h].todo && Waiting(s, e)
    ensures var u := Run(s, more);
      h in u.handlers && u.handlers[h].work.Free? && e in u.handlers[h].todo && Waiting(u, e)
  {
    hide Apply, Run;
    if s.handlers[h].work.Got? {
      more := [HandlerFinish(h)];
      OneStep(s, HandlerFinish(h));
      FinishFrees(s, h, e);
    } else {
      var call := NextCall(s, h);
      more := [call, HandlerFinish(h)];
      TwoSteps(s, call, HandlerFinish(h));
      CallAnswers(s, h, e);
      FinishFrees(Apply(s, call), h, e);
    }
  }

  function NextCall(s: State, h: HandlerId): Step
    requires h in s.handlers && Busy(s.handlers[h].work) && s.handlers[h].work.exec in s.executions
  {
    if s.handlers[h].work.Ready? && s.executions[s.handlers[h].work.exec].tool.WebSearch? then HandlerSearch(h, true)
    else HandlerProvider(h, true)
  }

  lemma CallAnswers(s: State, h: HandlerId, e: ExecId)
    requires h in s.handlers && (s.handlers[h].work.Ready? || s.handlers[h].work.Tried?) && Waiting(s, e)
    requires s.handlers[h].work.exec in s.executions
    ensures var w := s.handlers[h].work; var u := Apply(s, NextCall(s, h));
      h in u.handlers && u.handlers[h] == s.handlers[h].(work := Got(w.exec, true)) && u.executions == s.executions
  {
  }

  lemma FinishFrees(s: State, h: HandlerId, e: ExecId)
    requires h in s.handlers && s.handlers[h].work.Got? && s.handlers[h].work.exec != e && Waiting(s, e)
    ensures var u := Apply(s, HandlerFinish(h));
      h in u.handlers && u.handlers[h] == s.handlers[h].(work := Free) && Waiting(u, e)
  {
  }

  // ----- how rows that are already there are left behind

  /** While an approval is pending no handler run has its rows on its list, or will query them. */
  lemma PendingIsUnhandled(s: State, e: ExecId)
    requires Inv(s) && Waiting(s, e) && s.executions[e].approval.Some? && s.executions[e].approval.value in s.approvals
    requires s.approvals[s.executions[e].approval.value].status.Pending?
    ensures NoQueryAhead(s, s.executions[e].approval.value) && OnNoList(s, e)
  {
    hide RowOk, CallerOk, ApprovalOk, EventOk;
    forall h | h in s.handlers ensures s.handlers[h].approval != s.executions[e].approval.value && e !in s.handlers[h].todo {
      assert HandlerOk(s, h);
    }
  }

  /** Cancelling strands the rows of the approval, as their status is not touched and no query follows. */
  lemma CancelStrands(s: State, h: HandlerId, org: OrgId, now: int, e: ExecId)
    requires Inv(s) && Waiting(s, e) && h !in s.handlers && now >= s.clock
    requires s.executions[e].approval.Some? && Verdicted(s.approvals, org, s.executions[e].approval.value, now).Done?
    ensures Stranded(Apply(s, Step.Cancel(h, org, s.executions[e].approval.value, now)), e)
  {
    hide Inv;
    WaitingStrandedIff(s, e);
    PendingIsUnhandled(s, e);
    var a := s.executions[e].approval.value;
    var u := Apply(s, Step.Cancel(h, org, a, now));
    HandlerStepKeepsInv(s, Step.Cancel(h, org, a, now));
    assert u.handlers == s.handlers[h := Handler(false, a, {}, Free)] && u.executions == s.executions;
    assert Closed(u, a) && NoQueryAhead(u, a) && OnNoList(u, e);
    WaitingStrandedIff(u, e);
  }

  /** A row whose approval is pending is stranded exactly when the approval's time is over. */
  lemma PendingStrandedIff(s: State, e: ExecId)
    requires Inv(s) && Waiting(s, e) && s.executions[e].approval.Some? && s.executions[e].approval.value in s.approvals
    requires s.approvals[s.executions[e].approval.value].status.Pending?
    ensures Stranded(s, e) <==> s.clock > s.approvals[s.executions[e].approval.value].expiresAt
  {
    hide Inv, Stranded;
    WaitingStrandedIff(s, e);
    PendingIsUnhandled(s, e);
  }

  /** So does a query that fails: it is the only one that its approval will ever get. */
  lemma FailedQueryStrands(s: State, h: HandlerId, e: ExecId)
    requires Inv(s) && Waiting(s, e) && h in s.handlers && s.handlers[h].work.Unread?
    requires s.executions[e].approval == Some(s.handlers[h].approval)
    ensures Stranded(Apply(s, ListRows(h, false)), e)
  {
    hide Inv, Stranded;
    var a := s.handlers[h].approval;
    var u := Apply(s, ListRows(h, false));
    HandlerStepKeepsInv(s, ListRows(h, false));
    assert u.handlers == s.handlers[h := s.handlers[h].(todo := {}, work := Free)];
    assert u.executions == s.executions && u.approvals == s.approvals;
    hide Apply;
    WaitingStrandedIff(u, e);
    OneHandlerPerApproval(s, h, e);
  }

  /** An approval is decided by one handler run at most, and its rows are on that run's list if on any. */
  lemma OneHandlerPerApproval(s: State, h: HandlerId, e: ExecId)
    requires Inv(s) && h in s.handlers && e in s.executions
    requires s.executions[e].approval == Some(s.handlers[h].approval)
    ensures s.handlers[h].approval in s.approvals && !s.approvals[s.handlers[h].approval].status.Pending?
    ensures forall k :: k in s.handlers && (s.handlers[k].approval == s.handlers[h].approval || e in s.handlers[k].todo) ==> k == h
  {
    hide RowOk, CallerOk, ApprovalOk, EventOk;
    assert HandlerOk(s, h);
    forall k | k in s.handlers && (s.handlers[k].approval == s.handlers[h].approval || e in s.handlers[k].todo) ensures k == h {
      assert HandlerOk(s, k);
    }
  }

  lemma StepKeepsApprovalOfRow(s: State, step: Step, e: ExecId)
    requires e in s.executions
    ensures e in Apply(s, step).executions && Apply(s, step).executions[e].approval == s.executions[e].approval
  {
    hide KeyTaken, KeyKnown, AfterDecide, AfterExpiry;
  }

  lemma {:induction false} RunKeepsApprovalOfRow(s: State, steps: seq<Step>, e: ExecId)
    requires e in s.executions
    ensures e in Run(s, steps).executions && Run(s, steps).executions[e].approval == s.executions[e].approval
    decreases |steps|
  {
    hide Apply;
    if steps != [] {
      RunKeepsApprovalOfRow(s, steps[..|steps| - 1], e);
      StepKeepsApprovalOfRow(Run(s, steps[..|steps| - 1]), steps[|steps| - 1], e);
    }
  }

  /** A row that is there before the query, however long before, is on the list of the handler run that makes it. */
  lemma EarlierRowIsListed(s: State, more: seq<Step>, h: HandlerId, e: ExecId)
    requires e in s.executions && h in Run(s, more).handlers && Run(s, more).handlers[h].work.Unread?
    requires s.executions[e].approval == Some(Run(s, more).handlers[h].approval)
    ensures var u := Apply(Run(s, more), ListRows(h, true)); h in u.handlers && e in u.handlers[h].todo
  {
    hide Run;
    RunKeepsApprovalOfRow(s, more, e);
  }

  /** In particular a row inserted behind the query of its own grant waits for ever for the approval it has. */
  lemma GrantedButWaiting(s: State, c: CallerId, e: ExecId, more: seq<Step>)
    requires Inv(s) && AboutToInsert(s, c, e)
    requires var a := s.callers[c].pc.approval;
      a in s.approvals && s.approvals[a].status.Approved? && NoQueryAhead(s, a)
    ensures var a, u := s.callers[c].pc.approval, Run(Inserted(s, c, e), more);
      && e in u.executions && u.executions[e].status.ApprovalRequired? && u.executions[e].approval == Some(a)
      && a in u.approvals && u.approvals[a].status.Approved?
      && Called(e, Search) !in u.log && Called(e, Provider) !in u.log
  {
    hide Inv, Apply, Run, NoQueryAhead, Count;
    InsertedState(s, c, e);
    InsertStrandsIff(s, c, e);
    StrandedForever(Inserted(s, c, e), more, e);
    DecisionsAreFinal(Inserted(s, c, e), more, s.callers[c].pc.approval);
    FreshRowIsUncalled(s, e);
    CountsMembership(s.log, e, Search);
    CountsMembership(s.log, e, Provider);
  }

  /** Such a state is reached: for every organization, key and tool, by granting between the two inserts. */
  lemma GrantBeforeInsertStrands(org: OrgId, key: Key, tool: Tool, more: seq<Step>)
    ensures
      var p := Params(org, key, tool, true);
      var early := [Begin(0, p), Lookup(0, true), Ask(0, 0, 0, true), Approve(0, org, 0, 1), ListRows(0, true)];
      var u := Run(Inserted(Run(START, early), 0, 0), more);
      && 0 in u.executions && u.executions[0].status.ApprovalRequired? && u.executions[0].approval == Some(0)
      && 0 in u.approvals && u.approvals[0].status.Approved?
      && Called(0, Search) !in u.log && Called(0, Provider) !in u.log
  {
    hide Inv;
    var p := Params(org, key, tool, true);
    var early := [Begin(0, p), Lookup(0, true), Ask(0, 0, 0, true), Approve(0, org, 0, 1), ListRows(0, true)];
    InvAtStart();
    RunKeepsInv(START, early);
    EarlyGrant(org, key, tool);
    GrantedButWaiting(Run(START, early), 0, 0, more);
  }

  lemma EarlyGrant(org: OrgId, key: Key, tool: Tool)
    ensures
      var p := Params(org, key, tool, true);
      var early := [Begin(0, p), Lookup(0, true), Ask(0, 0, 0, true), Approve(0, org, 0, 1), ListRows(0, true)];
      Run(START, early) ==
        START.(callers := map[0 := Caller(p, Asked(0))], approvals := map[0 := Approval(org, Approved, DAY, Some(0))],
               clock := 1, log := [Decided(0, Approved, 1, org)], handlers := map[0 := Handler(true, 0, {}, Free)])
  {
    hide Apply;
    var p := Params(org, key, tool, true);
    var early := [Begin(0, p), Lookup(0, true), Ask(0, 0, 0, true), Approve(0, org, 0, 1)];
    var checked := START.(callers := map[0 := Caller(p, Checked)]);
    LookupStep(START, 0, p, true);
    AskStep(p, checked);
    var asked := checked.(callers := map[0 := Caller(p, Asked(0))], approvals := map[0 := Approval(org, Pending, DAY, None)]);
    ApproveStep(asked, org);
    var granted := asked.(approvals := map[0 := Approval(org, Approved, DAY, Some(0))], clock := 1,
                          log := [Decided(0, Approved, 1, org)], handlers := map[0 := Handler(true, 0, {}, Unread)]);
    ListStep(granted);
    FourSteps(START, early[0], early[1], early[2], early[3]);
    RunSnoc(START, early, ListRows(0, true));
    assert early + [ListRows(0, true)]
      == [Begin(0, p), Lookup(0, true), Ask(0, 0, 0, true), Approve(0, org, 0, 1), ListRows(0, true)];
  }

  lemma AskStep(p: Params, s: State)
    requires p.gated && s == START.(callers := map[0 := Caller(p, Checked)])
    ensures Apply(s, Ask(0, 0, 0, true)) ==
      s.(callers := map[0 := Caller(p, Asked(0))], approvals := map[0 := Approval(p.org, Pending, DAY, None)])
  {
    assert s.callers[0 := Caller(p, Asked(0))] == map[0 := Caller(p, Asked(0))];
  }

  lemma ApproveStep(s: State, org: OrgId)
    requires s.approvals == map[0 := Approval(org, Pending, DAY, None)] && s.handlers == map[]
    requires s.log == [] && s.clock == 0
    ensures Apply(s, Approve(0, org, 0, 1)) ==
      s.(approvals := map[0 := Approval(org, Approved, DAY, Some(0))], clock := 1,
         log := [Decided(0, Approved, 1, org)], handlers := map[0 := Handler(true, 0, {}, Unread)])
  {
    assert s.approvals[0 := Approval(org, Approved, DAY, Some(0))] == map[0 := Approval(org, Approved, DAY, Some(0))];
  }

  lemma ListStep(s: State)
    requires s.handlers == map[0 := Handler(true, 0, {}, Unread)] && s.executions == map[]
    ensures Apply(s, ListRows(0, true)) == s.(handlers := map[0 := Handler(true, 0, {}, Free)])
  {
    assert RowsOf(s.executions, 0) == {};
    assert s.handlers[0 := Handler(true, 0, {}, Free)] == map[0 := Handler(true, 0, {}, Free)];
  }
}
