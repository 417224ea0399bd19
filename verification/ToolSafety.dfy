/** Safety of the tool protocol over every interleaving: one run per key, and only behind an approval. */
module ToolSafety {
  import opened Options
  import opened ToolProtocol

  /** How often `e` was run with this kind of call. */
  function Count(log: seq<Event>, e: ExecId, k: Call): nat {
    if log == [] then 0
    else Count(log[..|log| - 1], e, k) + if log[|log| - 1] == Called(e, k) then 1 else 0
  }

  lemma CountSnoc(log: seq<Event>, ev: Event, e: ExecId, k: Call)
    ensures Count(log + [ev], e, k) == Count(log, e, k) + if ev == Called(e, k) then 1 else 0
  {
    assert (log + [ev])[..|log|] == log;
  }

  // ----- the invariant, element by element

  predicate PcMayCall(pc: Pc, e: ExecId, k: Call) {
    (pc.Holding? && pc.exec == e) || (pc.Searched? && pc.exec == e && k == Provider)
  }

  predicate HandlerMayCall(h: Handler, e: ExecId, k: Call) {
    h.work.Unread? || e in h.todo || (h.work.Ready? && h.work.exec == e) || (h.work.Tried? && h.work.exec == e && k == Provider)
  }

  /** Someone can still make this call for row `e`, now or once its approval is granted. */
  predicate MayCall(s: State, e: ExecId, k: Call)
    requires e in s.executions
  {
    var x := s.executions[e];
    if x.approval.None? then x.creator in s.callers && PcMayCall(s.callers[x.creator].pc, e, k)
    else
      x.approval.value in s.approvals
      && var a := s.approvals[x.approval.value];
        a.status.Pending? || (a.status.Approved? && a.decider.Some? && a.decider.value in s.handlers
                              && HandlerMayCall(s.handlers[a.decider.value], e, k))
  }

  predicate RowOk(s: State, e: ExecId)
    requires e in s.executions
  {
    var x := s.executions[e];
    && x.creator in s.callers
    && (x.approval.Some? ==> x.approval.value in s.approvals && s.approvals[x.approval.value].org == x.org)
    && Count(s.log, e, Search) + (if MayCall(s, e, Search) then 1 else 0) <= 1
    && Count(s.log, e, Provider) + (if MayCall(s, e, Provider) then 1 else 0) <= 1
    && (x.status.ApprovalRequired? ==>
          x.approval.Some? && Count(s.log, e, Search) == 0 && Count(s.log, e, Provider) == 0)
    && (x.status.Succeeded? ==> Count(s.log, e, Search) + Count(s.log, e, Provider) > 0)
  }

  predicate CallerOk(s: State, c: CallerId)
    requires c in s.callers
  {
    var pc := s.callers[c].pc;
    && (pc.Asked? ==> pc.approval in s.approvals && s.approvals[pc.approval].org == s.callers[c].p.org)
    && (pc.Holding? || pc.Searched? || pc.Answered? ==>
          pc.exec in s.executions && s.executions[pc.exec].creator == c && s.executions[pc.exec].approval.None?
          && !s.executions[pc.exec].status.ApprovalRequired?)
    && (pc.Answered? ==> Count(s.log, pc.exec, Search) + Count(s.log, pc.exec, Provider) > 0)
  }

  predicate HandlerOk(s: State, h: HandlerId)
    requires h in s.handlers
  {
    var r := s.handlers[h];
    && r.approval in s.approvals && s.approvals[r.approval].decider == Some(h)
    && (r.approving ==> s.approvals[r.approval].status.Approved?)
    && (!r.approving ==> !s.approvals[r.approval].status.Pending? && !s.approvals[r.approval].status.Approved? && !Busy(r.work))
    && (r.work.Unread? ==> r.todo == {})
    && (forall e :: e in r.todo ==> e in s.executions && s.executions[e].approval == Some(r.approval))
    && (Busy(r.work) ==> r.work.exec in s.executions && s.executions[r.work.exec].approval == Some(r.approval)
                          && r.work.exec !in r.todo && !s.executions[r.work.exec].status.ApprovalRequired?)
    && (r.work.Got? ==> Count(s.log, r.work.exec, Search) + Count(s.log, r.work.exec, Provider) > 0)
  }

  ghost predicate GrantedBefore(s: State, a: ApprovalId, i: nat)
    requires a in s.approvals && i <= |s.log|
  {
    exists j :: 0 <= j < i && s.log[j].Decided? && s.log[j].approval == a && s.log[j].decision == Approved
      && s.log[j].at <= s.approvals[a].expiresAt && s.log[j].org == s.approvals[a].org
  }

  ghost predicate ApprovalOk(s: State, a: ApprovalId)
    requires a in s.approvals
  {
    s.approvals[a].status.Approved? ==>
      && s.approvals[a].decider.Some? && s.approvals[a].decider.value in s.handlers
      && s.handlers[s.approvals[a].decider.value].approval == a && GrantedBefore(s, a, |s.log|)
  }

  /** A call in the log is for a row of the table, and a gated one comes behind its own approval. */
  ghost predicate EventOk(s: State, i: nat)
    requires i < |s.log|
  {
    s.log[i].Called? ==>
      && s.log[i].exec in s.executions
      && (s.executions[s.log[i].exec].approval.Some? ==>
            var a := s.executions[s.log[i].exec].approval.value;
            a in s.approvals && s.approvals[a].status.Approved? && GrantedBefore(s, a, i))
  }

  ghost predicate KeysUnique(s: State) {
    forall e, f :: e in s.executions && f in s.executions && s.executions[e].key == s.executions[f].key ==> e == f
  }

  ghost predicate Inv(s: State) {
    && KeysUnique(s)
    && (forall e :: e in s.executions ==> RowOk(s, e))
    && (forall c :: c in s.callers ==> CallerOk(s, c))
    && (forall h :: h in s.handlers ==> HandlerOk(s, h))
    && (forall a :: a in s.approvals ==> ApprovalOk(s, a))
    && (forall i :: 0 <= i < |s.log| ==> EventOk(s, i))
  }

  lemma InvAtStart()
    ensures Inv(START)
  {
  }

  /** Rows the log has never mentioned were never run. */
  lemma {:induction false} UnmentionedIsUncalled(log: seq<Event>, e: ExecId, k: Call)
    requires forall i :: 0 <= i < |log| ==> log[i] != Called(e, k)
    ensures Count(log, e, k) == 0
    decreases |log|
  {
    if log != [] { UnmentionedIsUncalled(log[..|log| - 1], e, k); }
  }

  lemma FreshRowIsUncalled(s: State, e: ExecId)
    requires Inv(s) && e !in s.executions
    ensures Count(s.log, e, Search) == 0 && Count(s.log, e, Provider) == 0
  {
    hide Count;
    forall i | 0 <= i < |s.log| ensures s.log[i] != Called(e, Search) && s.log[i] != Called(e, Provider) {
      assert EventOk(s, i);
    }
    UnmentionedIsUncalled(s.log, e, Search);
    UnmentionedIsUncalled(s.log, e, Provider);
  }

  // ----- every single change keeps it

  /** Another clock reading is no change. */
  lemma ClockKeepsInv(s: State, now: int)
    requires Inv(s)
    ensures Inv(s.(clock := now))
  {
    var u := s.(clock := now);
    forall e | e in u.executions ensures RowOk(u, e) { assert RowOk(s, e); }
    forall c | c in u.callers ensures CallerOk(u, c) { assert CallerOk(s, c); }
    forall h | h in u.handlers ensures HandlerOk(u, h) { assert HandlerOk(s, h); }
    forall a | a in u.approvals ensures ApprovalOk(u, a) { assert ApprovalOk(s, a); }
    forall i | 0 <= i < |u.log| ensures EventOk(u, i) { assert EventOk(s, i); }
  }

  /** A program counter that can call nothing: before the insert, or at the end. */
  predicate Quiet(pc: Pc) { pc.Looking? || pc.Checked? || pc.Left? }

  lemma QuietPcKeepsInv(s: State, c: CallerId, p: Params, pc: Pc)
    requires Inv(s) && (Quiet(pc) || (pc.Asked? && pc.approval in s.approvals && s.approvals[pc.approval].org == p.org))
    ensures Inv(s.(callers := s.callers[c := Caller(p, pc)]))
  {
    hide Count;
    var u := s.(callers := s.callers[c := Caller(p, pc)]);
    forall e | e in u.executions ensures RowOk(u, e) {
      assert RowOk(s, e);
      assert forall k :: MayCall(u, e, k) ==> MayCall(s, e, k);
    }
    forall d | d in u.callers ensures CallerOk(u, d) { if d != c { assert CallerOk(s, d); } }
    forall h | h in u.handlers ensures HandlerOk(u, h) { assert HandlerOk(s, h); }
    forall a | a in u.approvals ensures ApprovalOk(u, a) { assert ApprovalOk(s, a); }
    forall i | 0 <= i < |u.log| ensures EventOk(u, i) { assert EventOk(s, i); }
  }

  function StatusSet(s: State, e: ExecId, status: Status): State {
    s.(executions := WithStatus(s.executions, e, status))
  }

  lemma StatusOnlyChangesStatus(s: State, e: ExecId, status: Status, f: ExecId)
    requires f in s.executions
    ensures f in StatusSet(s, e, status).executions
    ensures StatusSet(s, e, status).executions[f] == s.executions[f].(status := if f == e then status else s.executions[f].status)
  {
  }

  lemma StatusKeepsRow(s: State, e: ExecId, status: Status, f: ExecId)
    requires f in s.executions && RowOk(s, f) && !status.ApprovalRequired?
    requires status.Succeeded? && f == e ==> Count(s.log, e, Search) + Count(s.log, e, Provider) > 0
    ensures f in StatusSet(s, e, status).executions && RowOk(StatusSet(s, e, status), f)
  {
    hide Count, WithStatus;
    StatusOnlyChangesStatus(s, e, status, f);
  }

  lemma StatusKeepsCaller(s: State, e: ExecId, status: Status, c: CallerId)
    requires c in s.callers && CallerOk(s, c) && !status.ApprovalRequired?
    ensures CallerOk(StatusSet(s, e, status), c)
  {
    hide Count;
  }

  lemma StatusKeepsHandler(s: State, e: ExecId, status: Status, h: HandlerId)
    requires h in s.handlers && HandlerOk(s, h) && !status.ApprovalRequired?
    ensures HandlerOk(StatusSet(s, e, status), h)
  {
    hide Count;
  }

  lemma StatusKeepsEvent(s: State, e: ExecId, status: Status, i: nat)
    requires i < |s.log| && EventOk(s, i)
    ensures EventOk(StatusSet(s, e, status), i)
  {
  }

  lemma StatusKeepsInv(s: State, e: ExecId, status: Status)
    requires Inv(s) && e in s.executions && !status.ApprovalRequired?
    requires status.Succeeded? ==> Count(s.log, e, Search) + Count(s.log, e, Provider) > 0
    ensures Inv(s.(executions := WithStatus(s.executions, e, status)))
  {
    hide Count, RowOk, CallerOk, HandlerOk, EventOk;
    var u := StatusSet(s, e, status);
    forall f | f in u.executions ensures RowOk(u, f) { StatusKeepsRow(s, e, status, f); }
    forall c | c in u.callers ensures CallerOk(u, c) { StatusKeepsCaller(s, e, status, c); }
    forall h | h in u.handlers ensures HandlerOk(u, h) { StatusKeepsHandler(s, e, status, h); }
    forall a | a in u.approvals ensures ApprovalOk(u, a) { assert ApprovalOk(s, a); }
    forall i | 0 <= i < |u.log| ensures EventOk(u, i) { StatusKeepsEvent(s, e, status, i); }
    forall f | f in s.executions ensures u.executions[f].key == s.executions[f].key { StatusOnlyChangesStatus(s, e, status, f); }
  }

  lemma NewApprovalKeepsInv(s: State, a: ApprovalId, row: Approval)
    requires Inv(s) && a !in s.approvals && row.status.Pending?
    ensures Inv(s.(approvals := s.approvals[a := row]))
  {
    hide Count;
    var u := s.(approvals := s.approvals[a := row]);
    forall e | e in u.executions ensures RowOk(u, e) {
      assert RowOk(s, e);
      assert forall k :: MayCall(u, e, k) == MayCall(s, e, k);
    }
    forall c | c in u.callers ensures CallerOk(u, c) { assert CallerOk(s, c); }
    forall h | h in u.handlers ensures HandlerOk(u, h) { assert HandlerOk(s, h); }
    forall b | b in u.approvals ensures ApprovalOk(u, b) { if b != a { assert ApprovalOk(s, b); } }
    forall i | 0 <= i < |u.log| ensures EventOk(u, i) { assert EventOk(s, i); }
  }

  /** Caller `c` inserts `row` as row `e`: to wait for its approval, or to run it. */
  predicate Inserts(s: State, e: ExecId, row: Execution, c: CallerId, pc: Pc) {
    && e !in s.executions && !KeyTaken(s.executions, row.key) && c in s.callers && row.creator == c
    && ((row.approval.Some? && row.approval.value in s.approvals && s.approvals[row.approval.value].org == row.org
         && row.status.ApprovalRequired? && pc.Left?)
        || (row.approval.None? && row.status.Running? && pc == Holding(e)))
  }

  lemma NewRowKeepsRow(s: State, e: ExecId, row: Execution, c: CallerId, pc: Pc, f: ExecId)
    requires Inserts(s, e, row, c, pc) && f in s.executions && RowOk(s, f)
    ensures RowOk(AtPc(s, c, pc).(executions := s.executions[e := row]), f)
  {
    hide Count, KeyTaken;
    var u := AtPc(s, c, pc).(executions := s.executions[e := row]);
    assert forall k :: MayCall(u, f, k) ==> MayCall(s, f, k);
  }

  lemma NewRowKeepsEvent(s: State, e: ExecId, row: Execution, c: CallerId, pc: Pc, i: nat)
    requires Inserts(s, e, row, c, pc) && i < |s.log| && EventOk(s, i)
    ensures EventOk(AtPc(s, c, pc).(executions := s.executions[e := row]), i)
  {
    hide KeyTaken;
  }

  lemma NewRowIsOk(s: State, e: ExecId, row: Execution, c: CallerId, pc: Pc)
    requires Inv(s) && Inserts(s, e, row, c, pc)
    ensures RowOk(AtPc(s, c, pc).(executions := s.executions[e := row]), e)
  {
    FreshRowIsUncalled(s, e);
    hide Count, MayCall, Inv;
  }

  lemma NewRowKeepsInv(s: State, e: ExecId, row: Execution, c: CallerId, pc: Pc)
    requires Inv(s) && Inserts(s, e, row, c, pc)
    ensures Inv(AtPc(s, c, pc).(executions := s.executions[e := row]))
  {
    hide Count, RowOk, EventOk;
    var u := AtPc(s, c, pc).(executions := s.executions[e := row]);
    NewRowIsOk(s, e, row, c, pc);
    forall f | f in u.executions ensures RowOk(u, f) {
      if f != e { NewRowKeepsRow(s, e, row, c, pc, f); }
    }
    forall d | d in u.callers ensures CallerOk(u, d) { assert CallerOk(s, d); }
    forall h | h in u.handlers ensures HandlerOk(u, h) { assert HandlerOk(s, h); }
    forall a | a in u.approvals ensures ApprovalOk(u, a) { assert ApprovalOk(s, a); }
    forall i | 0 <= i < |u.log| ensures EventOk(u, i) { NewRowKeepsEvent(s, e, row, c, pc, i); }
  }

  lemma CountsAfter(s: State, ev: Event)
    ensures forall e, k :: Count(s.log + [ev], e, k) == Count(s.log, e, k) + if ev == Called(e, k) then 1 else 0
  {
    forall e, k ensures Count(s.log + [ev], e, k) == Count(s.log, e, k) + if ev == Called(e, k) then 1 else 0 {
      CountSnoc(s.log, ev, e, k);
    }
  }

  lemma GrantsStay(s: State, u: State, a: ApprovalId, i: nat)
    requires a in s.approvals && a in u.approvals && u.approvals[a].expiresAt == s.approvals[a].expiresAt
      && u.approvals[a].org == s.approvals[a].org
    requires s.log <= u.log && i <= |s.log| && GrantedBefore(s, a, i)
    ensures forall j :: i <= j <= |u.log| ==> GrantedBefore(u, a, j)
  {
    var k :| 0 <= k < i && s.log[k].Decided? && s.log[k].approval == a && s.log[k].decision == Approved
      && s.log[k].at <= s.approvals[a].expiresAt && s.log[k].org == s.approvals[a].org;
    assert u.log[k] == s.log[k];
  }

  predicate CallerCalls(s: State, c: CallerId, e: ExecId, k: Call, pc: Pc) {
    c in s.callers &&
    ((s.callers[c].pc == Holding(e) && (pc.Answered? || (k == Search && pc.Searched?))) ||
     (s.callers[c].pc == Searched(e) && k == Provider && pc.Answered?))
    && pc.exec == e
  }

  lemma CallerCallKeepsRow(s: State, c: CallerId, e: ExecId, k: Call, pc: Pc, f: ExecId)
    requires CallerCalls(s, c, e, k, pc) && CallerOk(s, c) && f in s.executions && RowOk(s, f)
    ensures RowOk(AtPc(s, c, pc).(log := s.log + [Called(e, k)]), f)
  {
    hide Count;
    var u := AtPc(s, c, pc).(log := s.log + [Called(e, k)]);
    CountsAfter(s, Called(e, k));
    assert f == e ==> MayCall(s, e, k);
    assert f == e ==> !MayCall(u, e, k);
    assert forall l :: MayCall(u, f, l) ==> MayCall(s, f, l);
  }

  lemma CallerCallKeepsCaller(s: State, c: CallerId, e: ExecId, k: Call, pc: Pc, d: CallerId)
    requires CallerCalls(s, c, e, k, pc) && CallerOk(s, c) && d in s.callers && CallerOk(s, d)
    ensures CallerOk(AtPc(s, c, pc).(log := s.log + [Called(e, k)]), d)
  {
    hide Count;
    CountsAfter(s, Called(e, k));
  }

  /** A caller runs the tool of the row it inserted. */
  lemma CallerCallKeepsInv(s: State, c: CallerId, e: ExecId, k: Call, pc: Pc)
    requires Inv(s) && CallerCalls(s, c, e, k, pc)
    ensures Inv(AtPc(s, c, pc).(log := s.log + [Called(e, k)]))
  {
    hide Count, RowOk;
    var u := AtPc(s, c, pc).(log := s.log + [Called(e, k)]);
    CountsAfter(s, Called(e, k));
    assert CallerOk(s, c);
    forall f | f in u.executions ensures RowOk(u, f) { CallerCallKeepsRow(s, c, e, k, pc, f); }
    forall d | d in u.callers ensures CallerOk(u, d) { CallerCallKeepsCaller(s, c, e, k, pc, d); }
    forall h | h in u.handlers ensures HandlerOk(u, h) { assert HandlerOk(s, h); }
    forall a | a in u.approvals ensures ApprovalOk(u, a) {
      assert ApprovalOk(s, a);
      if s.approvals[a].status.Approved? { GrantsStay(s, u, a, |s.log|); }
    }
    LogKeepsEvents(s, u);
  }

  lemma LogKeepsEvents(s: State, u: State)
    requires Inv(s) && s.log <= u.log && u.approvals == s.approvals && u.executions == s.executions
    ensures forall i :: 0 <= i < |s.log| ==> EventOk(u, i)
  {
    forall i | 0 <= i < |s.log| ensures EventOk(u, i) {
      assert EventOk(s, i) && u.log[i] == s.log[i];
      if s.log[i].Called? && s.executions[s.log[i].exec].approval.Some? {
        GrantsStay(s, u, s.executions[s.log[i].exec].approval.value, i);
      }
    }
  }

  lemma CallerStepKeepsInv(s: State, step: Step)
    requires Inv(s) && !ByHandler(step)
    ensures Inv(CallerStep(s, step))
  {
    hide Inv, Count;
    match step {
      case Begin(c, p) => QuietPcKeepsInv(s, c, p, Looking);
      case Lookup(c, pass) =>
        if c in s.callers {
          QuietPcKeepsInv(s, c, s.callers[c].p, Left);
          QuietPcKeepsInv(s, c, s.callers[c].p, Checked);
        }
      case Ask(c, a, now, ok) =>
        if c in s.callers && a !in s.approvals {
          var p := s.callers[c].p;
          QuietPcKeepsInv(s, c, p, Left);
          var t := s.(approvals := s.approvals[a := Approval(p.org, Pending, now + DAY, None)]);
          NewApprovalKeepsInv(s, a, Approval(p.org, Pending, now + DAY, None));
          QuietPcKeepsInv(t, c, p, Asked(a));
          ClockKeepsInv(t.(callers := t.callers[c := Caller(p, Asked(a))]), now);
        }
      case InsertGated(c, e, ok) =>
        if c in s.callers && s.callers[c].pc.Asked? && e !in s.executions {
          var p := s.callers[c].p;
          QuietPcKeepsInv(s, c, p, Left);
          AskedApprovalExists(s, c);
          if !KeyTaken(s.executions, p.key) {
            NewRowKeepsInv(s, e, Execution(p.org, p.key, p.tool, ApprovalRequired, Some(s.callers[c].pc.approval), c), c, Left);
          }
        }
      case InsertPlain(c, e, ok) =>
        if c in s.callers && e !in s.executions {
          var p := s.callers[c].p;
          QuietPcKeepsInv(s, c, p, Left);
          if !KeyTaken(s.executions, p.key) {
            NewRowKeepsInv(s, e, Execution(p.org, p.key, p.tool, Running, None, c), c, Holding(e));
          }
        }
      case Admit(c, ok) =>
        if c in s.callers && s.callers[c].pc.Holding? {
          CallerHasRow(s, c);
          StatusKeepsInv(s, s.callers[c].pc.exec, Failed);
          var t := s.(executions := WithStatus(s.executions, s.callers[c].pc.exec, Failed));
          QuietPcKeepsInv(t, c, s.callers[c].p, Left);
        }
      case CallerSearch(c, ok) =>
        if c in s.callers && s.callers[c].pc.Holding? {
          var e := s.callers[c].pc.exec;
          CallerCallKeepsInv(s, c, e, Search, if ok then Answered(e, true) else Searched(e));
        }
      case CallerProvider(c, ok) =>
        if c in s.callers && (s.callers[c].pc.Searched? || s.callers[c].pc.Holding?) {
          CallerCallKeepsInv(s, c, s.callers[c].pc.exec, Provider, Answered(s.callers[c].pc.exec, ok));
        }
      case CallerFinish(c) =>
        if c in s.callers && s.callers[c].pc.Answered? {
          CallerHasRow(s, c);
          var status := if s.callers[c].pc.ok then Succeeded else Failed;
          StatusKeepsInv(s, s.callers[c].pc.exec, status);
          var t := s.(executions := WithStatus(s.executions, s.callers[c].pc.exec, status));
          QuietPcKeepsInv(t, c, s.callers[c].p, Left);
        }
    }
  }

  lemma AskedApprovalExists(s: State, c: CallerId)
    requires Inv(s) && c in s.callers && s.callers[c].pc.Asked?
    ensures s.callers[c].pc.approval in s.approvals && s.approvals[s.callers[c].pc.approval].org == s.callers[c].p.org
  {
    assert CallerOk(s, c);
  }

  lemma CallerHasRow(s: State, c: CallerId)
    requires Inv(s) && c in s.callers && (s.callers[c].pc.Holding? || s.callers[c].pc.Answered?)
    ensures var e := s.callers[c].pc.exec;
      e in s.executions && (s.callers[c].pc.Answered? ==> Count(s.log, e, Search) + Count(s.log, e, Provider) > 0)
  {
    assert CallerOk(s, c);
  }

  // ----- the handlers' changes

  /** Pending approvals may be closed without being granted. */
  predicate OnlyCloses(was: map<ApprovalId, Approval>, now: map<ApprovalId, Approval>) {
    was.Keys == now.Keys && forall a :: a in was ==>
      now[a] == was[a] ||
      (was[a].status.Pending? && !now[a].status.Pending? && !now[a].status.Approved? && now[a].expiresAt == was[a].expiresAt
       && now[a].org == was[a].org)
  }

  lemma ClosingKeepsInv(s: State, approvals: map<ApprovalId, Approval>)
    requires Inv(s) && OnlyCloses(s.approvals, approvals)
    ensures Inv(s.(approvals := approvals))
  {
    hide Count;
    var u := s.(approvals := approvals);
    forall e | e in u.executions ensures RowOk(u, e) {
      assert RowOk(s, e);
      assert forall k :: MayCall(u, e, k) ==> MayCall(s, e, k);
    }
    forall c | c in u.callers ensures CallerOk(u, c) { assert CallerOk(s, c); }
    forall h | h in u.handlers ensures HandlerOk(u, h) { assert HandlerOk(s, h); }
    forall a | a in u.approvals ensures ApprovalOk(u, a) {
      assert ApprovalOk(s, a);
      if u.approvals[a].status.Approved? { GrantsStay(s, u, a, |s.log|); }
    }
    forall i | 0 <= i < |u.log| ensures EventOk(u, i) {
      assert EventOk(s, i);
      if s.log[i].Called? && s.executions[s.log[i].exec].approval.Some? {
        GrantsStay(s, u, s.executions[s.log[i].exec].approval.value, i);
      }
    }
  }

  lemma NotedDecisionKeepsInv(s: State, ev: Event)
    requires Inv(s) && ev.Decided?
    ensures Inv(s.(log := s.log + [ev]))
  {
    hide Count;
    var u := s.(log := s.log + [ev]);
    CountsAfter(s, ev);
    forall e | e in u.executions ensures RowOk(u, e) {
      assert RowOk(s, e);
      assert forall k :: MayCall(u, e, k) == MayCall(s, e, k);
    }
    forall c | c in u.callers ensures CallerOk(u, c) { assert CallerOk(s, c); }
    forall h | h in u.handlers ensures HandlerOk(u, h) { assert HandlerOk(s, h); }
    forall a | a in u.approvals ensures ApprovalOk(u, a) {
      assert ApprovalOk(s, a);
      if s.approvals[a].status.Approved? { GrantsStay(s, u, a, |s.log|); }
    }
    LogKeepsEvents(s, u);
  }

  /** A handler run that may only mark rows failed. */
  lemma NewRejecterKeepsInv(s: State, h: HandlerId, a: ApprovalId, w: Work)
    requires Inv(s) && h !in s.handlers && a in s.approvals && !Busy(w)
    requires !s.approvals[a].status.Pending? && !s.approvals[a].status.Approved? && s.approvals[a].decider == Some(h)
    ensures Inv(s.(handlers := s.handlers[h := Handler(false, a, {}, w)]))
  {
    hide Count;
    var u := s.(handlers := s.handlers[h := Handler(false, a, {}, w)]);
    forall e | e in u.executions ensures RowOk(u, e) {
      assert RowOk(s, e);
      assert forall b :: b in s.approvals ==> ApprovalOk(s, b);
      assert forall k :: MayCall(u, e, k) ==> MayCall(s, e, k);
    }
    forall c | c in u.callers ensures CallerOk(u, c) { assert CallerOk(s, c); }
    forall g | g in u.handlers ensures HandlerOk(u, g) { if g != h { assert HandlerOk(s, g); } }
    forall b | b in u.approvals ensures ApprovalOk(u, b) { assert ApprovalOk(s, b); }
    forall i | 0 <= i < |u.log| ensures EventOk(u, i) { assert EventOk(s, i); }
  }

  lemma GrantKeepsRow(s: State, h: HandlerId, a: ApprovalId, e: ExecId)
    requires Inv(s) && h !in s.handlers && a in s.approvals && s.approvals[a].status.Pending? && e in s.executions
    ensures RowOk(s.(approvals := s.approvals[a := s.approvals[a].(status := Approved, decider := Some(h))],
                     handlers := s.handlers[h := Handler(true, a, {}, Unread)]), e)
  {
    hide Count, CallerOk, HandlerOk, EventOk, GrantedBefore;
    var u := s.(approvals := s.approvals[a := s.approvals[a].(status := Approved, decider := Some(h))],
                handlers := s.handlers[h := Handler(true, a, {}, Unread)]);
    assert RowOk(s, e);
    assert forall b :: b in s.approvals ==> ApprovalOk(s, b);
    assert forall k :: MayCall(u, e, k) ==> MayCall(s, e, k);
  }

  /** Granting a pending approval lets one new handler run look for its rows, none of which has been run. */
  lemma GrantKeepsInv(s: State, h: HandlerId, a: ApprovalId)
    requires Inv(s) && h !in s.handlers && a in s.approvals && s.approvals[a].status.Pending?
    requires GrantedBefore(s, a, |s.log|)
    ensures Inv(s.(approvals := s.approvals[a := s.approvals[a].(status := Approved, decider := Some(h))],
                   handlers := s.handlers[h := Handler(true, a, {}, Unread)]))
  {
    hide Count;
    var u := s.(approvals := s.approvals[a := s.approvals[a].(status := Approved, decider := Some(h))],
                handlers := s.handlers[h := Handler(true, a, {}, Unread)]);
    forall e | e in u.executions ensures RowOk(u, e) { GrantKeepsRow(s, h, a, e); }
    hide RowOk;
    forall c | c in u.callers ensures CallerOk(u, c) { assert CallerOk(s, c); }
    forall g | g in u.handlers ensures HandlerOk(u, g) { if g != h { assert HandlerOk(s, g); } }
    GrantsStay(s, u, a, |s.log|);
    forall b | b in u.approvals ensures ApprovalOk(u, b) {
      assert ApprovalOk(s, b);
      if s.approvals[b].status.Approved? { GrantsStay(s, u, b, |s.log|); }
    }
    forall i | 0 <= i < |u.log| ensures EventOk(u, i) {
      assert EventOk(s, i);
      if s.log[i].Called? && s.executions[s.log[i].exec].approval.Some? {
        GrantsStay(s, u, s.executions[s.log[i].exec].approval.value, i);
      }
    }
  }

  /** `g` lets its handler call nothing that `f` did not. */
  predicate GrantsNoMore(f: Handler, g: Handler) {
    f.approving == g.approving && f.approval == g.approval && g.todo <= f.todo
    && (g.work == f.work || g.work.Free? || (g.work.Ready? && f.work.Free? && g.work.exec in f.todo && g.work.exec !in g.todo))
  }

  lemma ProgressKeepsRow(s: State, h: HandlerId, g: Handler, e: ExecId)
    requires h in s.handlers && GrantsNoMore(s.handlers[h], g) && e in s.executions && RowOk(s, e)
    ensures RowOk(s.(handlers := s.handlers[h := g]), e)
  {
    hide Count;
    var u := s.(handlers := s.handlers[h := g]);
    assert forall k :: MayCall(u, e, k) ==> MayCall(s, e, k);
  }

  lemma HandlerProgressKeepsInv(s: State, h: HandlerId, g: Handler)
    requires Inv(s) && h in s.handlers && GrantsNoMore(s.handlers[h], g)
    requires g.work.Ready? && s.handlers[h].work.Free? ==>
      g.approving && g.work.exec in s.executions && !s.executions[g.work.exec].status.ApprovalRequired?
    ensures Inv(s.(handlers := s.handlers[h := g]))
  {
    hide Count, RowOk;
    var u := s.(handlers := s.handlers[h := g]);
    forall e | e in u.executions ensures RowOk(u, e) { ProgressKeepsRow(s, h, g, e); }
    forall c | c in u.callers ensures CallerOk(u, c) { assert CallerOk(s, c); }
    forall f | f in u.handlers ensures HandlerOk(u, f) { assert HandlerOk(s, f); }
    forall a | a in u.approvals ensures ApprovalOk(u, a) { assert ApprovalOk(s, a); }
    forall i | 0 <= i < |u.log| ensures EventOk(u, i) { assert EventOk(s, i); }
  }

  /** The query hands rows that the handler run may call already to its list. */
  lemma ListKeepsInv(s: State, h: HandlerId, todo: set<ExecId>)
    requires Inv(s) && h in s.handlers && s.handlers[h].work.Unread? && todo <= RowsOf(s.executions, s.handlers[h].approval)
    ensures Inv(s.(handlers := s.handlers[h := s.handlers[h].(todo := todo, work := Free)]))
  {
    hide Count;
    var u := s.(handlers := s.handlers[h := s.handlers[h].(todo := todo, work := Free)]);
    forall e | e in u.executions ensures RowOk(u, e) {
      assert RowOk(s, e);
      assert forall k :: MayCall(u, e, k) ==> MayCall(s, e, k);
    }
    forall c | c in u.callers ensures CallerOk(u, c) { assert CallerOk(s, c); }
    forall f | f in u.handlers ensures HandlerOk(u, f) { assert HandlerOk(s, f); }
    forall a | a in u.approvals ensures ApprovalOk(u, a) { assert ApprovalOk(s, a); }
    forall i | 0 <= i < |u.log| ensures EventOk(u, i) { assert EventOk(s, i); }
  }

  predicate HandlerCalls(s: State, h: HandlerId, e: ExecId, k: Call, w: Work) {
    h in s.handlers && Busy(w) && w.exec == e &&
    ((s.handlers[h].work == Ready(e) && (w.Got? || (k == Search && w.Tried?))) ||
     (s.handlers[h].work == Tried(e) && k == Provider && w.Got?))
  }

  lemma HandlerCallKeepsRow(s: State, h: HandlerId, e: ExecId, k: Call, w: Work, f: ExecId)
    requires HandlerCalls(s, h, e, k, w) && HandlerOk(s, h) && f in s.executions && RowOk(s, f)
    ensures RowOk(AtWork(s, h, w).(log := s.log + [Called(e, k)]), f)
  {
    hide Count;
    var u := AtWork(s, h, w).(log := s.log + [Called(e, k)]);
    CountsAfter(s, Called(e, k));
    assert f == e ==> MayCall(s, e, k);
    assert f == e ==> !MayCall(u, e, k);
    assert forall l :: MayCall(u, f, l) ==> MayCall(s, f, l);
  }

  lemma HandlerCallKeepsHandler(s: State, h: HandlerId, e: ExecId, k: Call, w: Work, g: HandlerId)
    requires HandlerCalls(s, h, e, k, w) && g in s.handlers && HandlerOk(s, g) && HandlerOk(s, h)
    ensures HandlerOk(AtWork(s, h, w).(log := s.log + [Called(e, k)]), g)
  {
    hide Count;
    CountsAfter(s, Called(e, k));
  }

  /** A handler run runs the tool of the row it is treating. */
  lemma HandlerCallKeepsInv(s: State, h: HandlerId, e: ExecId, k: Call, w: Work)
    requires Inv(s) && HandlerCalls(s, h, e, k, w)
    ensures Inv(AtWork(s, h, w).(log := s.log + [Called(e, k)]))
  {
    hide Count, RowOk, HandlerCalls;
    HandlerCallsKnown(s, h, e, k, w);
    var u := AtWork(s, h, w).(log := s.log + [Called(e, k)]);
    CountsAfter(s, Called(e, k));
    forall f | f in u.executions ensures RowOk(u, f) { HandlerCallKeepsRow(s, h, e, k, w, f); }
    forall c | c in u.callers ensures CallerOk(u, c) { assert CallerOk(s, c); }
    forall g | g in u.handlers ensures HandlerOk(u, g) { HandlerCallKeepsHandler(s, h, e, k, w, g); }
    forall a | a in u.approvals ensures ApprovalOk(u, a) {
      assert ApprovalOk(s, a);
      if s.approvals[a].status.Approved? { GrantsStay(s, u, a, |s.log|); }
    }
    LogKeepsEvents(s, u);
    var a := s.executions[e].approval.value;
    assert ApprovalOk(s, a);
    GrantsStay(s, u, a, |s.log|);
    assert EventOk(u, |s.log|);
  }

  lemma HandlerCallsKnown(s: State, h: HandlerId, e: ExecId, k: Call, w: Work)
    requires Inv(s) && HandlerCalls(s, h, e, k, w)
    ensures h in s.handlers && e in s.executions && s.executions[e].approval == Some(s.handlers[h].approval)
    ensures s.handlers[h].approval in s.approvals && s.approvals[s.handlers[h].approval].status.Approved?
  {
    assert HandlerOk(s, h);
  }

  lemma DecideStepKeepsInv(s: State, h: HandlerId, org: OrgId, a: ApprovalId, d: Decision, now: int)
    requires Inv(s) && (d.Approved? || d.Rejected? || d.Cancelled?)
    ensures Inv(DecideStep(s, h, org, a, d, now))
  {
    hide Inv, Count;
    var u := DecideStep(s, h, org, a, d, now);
    var v := Verdicted(s.approvals, org, a, now);
    var approvals := AfterDecide(s.approvals, org, a, d, h, now);
    if h in s.handlers || now < s.clock {
    } else if !v.Done? {
      ClosingKeepsInv(s, approvals);
      ClockKeepsInv(s.(approvals := approvals), now);
    } else {
      var noted := s.(log := s.log + [Decided(a, d, now, org)]);
      NotedDecisionKeepsInv(s, Decided(a, d, now, org));
      if d.Approved? {
        assert noted.log[|s.log|] == Decided(a, d, now, org);
        GrantKeepsInv(noted, h, a);
        var granted := noted.(approvals := approvals, handlers := s.handlers[h := Handler(true, a, {}, Unread)]);
        ClockKeepsInv(granted, now);
      } else {
        var closed := noted.(approvals := approvals);
        ClosingKeepsInv(noted, approvals);
        var work := if d == Cancelled then Free else Unread;
        NewRejecterKeepsInv(closed, h, a, work);
        ClockKeepsInv(closed.(handlers := s.handlers[h := Handler(false, a, {}, work)]), now);
      }
    }
  }

  lemma TodoRowExists(s: State, h: HandlerId, e: ExecId)
    requires Inv(s) && h in s.handlers && e in s.handlers[h].todo
    ensures e in s.executions
  {
    assert HandlerOk(s, h);
  }

  lemma TakeRowKeepsInv(s: State, h: HandlerId, e: ExecId, check: Recheck)
    requires Inv(s)
    ensures Inv(HandlerStep(s, TakeRow(h, e, check)))
  {
    hide Inv, Count;
    if h in s.handlers && s.handlers[h].approving && s.handlers[h].work.Free? && e in s.handlers[h].todo {
      TodoRowExists(s, h, e);
      var rest := s.handlers[h].(todo := s.handlers[h].todo - {e});
      HandlerProgressKeepsInv(s, h, rest);
      StatusKeepsInv(s, e, Failed);
      StatusKeepsInv(s, e, Running);
      HandlerProgressKeepsInv(s.(executions := WithStatus(s.executions, e, Failed)), h, rest);
      HandlerProgressKeepsInv(s.(executions := WithStatus(s.executions, e, Running)), h, rest.(work := Ready(e)));
    }
  }

  lemma WorkedRowExists(s: State, h: HandlerId)
    requires Inv(s) && h in s.handlers && Busy(s.handlers[h].work)
    ensures var e := s.handlers[h].work.exec;
      e in s.executions && (s.handlers[h].work.Got? ==> Count(s.log, e, Search) + Count(s.log, e, Provider) > 0)
  {
    assert HandlerOk(s, h);
  }

  lemma HandlerStepKeepsInv(s: State, step: Step)
    requires Inv(s) && ByHandler(step)
    ensures Inv(HandlerStep(s, step))
  {
    hide Inv, Count;
    match step {
      case Approve(h, org, a, now) => DecideStepKeepsInv(s, h, org, a, Approved, now);
      case Reject(h, org, a, now) => DecideStepKeepsInv(s, h, org, a, Rejected, now);
      case Cancel(h, org, a, now) => DecideStepKeepsInv(s, h, org, a, Cancelled, now);
      case ExpirePending(now) =>
        ClosingKeepsInv(s, AfterExpiry(s.approvals, now));
        ClockKeepsInv(s.(approvals := AfterExpiry(s.approvals, now)), now);
      case ListRows(h, ok) =>
        if h in s.handlers && s.handlers[h].work.Unread? {
          ListKeepsInv(s, h, if ok then RowsOf(s.executions, s.handlers[h].approval) else {});
        }
      case TakeRow(h, e, check) => TakeRowKeepsInv(s, h, e, check);
      case FailRow(h, e) =>
        if h in s.handlers && e in s.handlers[h].todo {
          TodoRowExists(s, h, e);
          StatusKeepsInv(s, e, Failed);
          HandlerProgressKeepsInv(s.(executions := WithStatus(s.executions, e, Failed)), h,
                                  s.handlers[h].(todo := s.handlers[h].todo - {e}));
        }
      case HandlerSearch(h, ok) =>
        if h in s.handlers && s.handlers[h].work.Ready? {
          var e := s.handlers[h].work.exec;
          HandlerCallKeepsInv(s, h, e, Search, if ok then Got(e, true) else Tried(e));
        }
      case HandlerProvider(h, ok) =>
        if h in s.handlers && (s.handlers[h].work.Ready? || s.handlers[h].work.Tried?) {
          var e := s.handlers[h].work.exec;
          HandlerCallKeepsInv(s, h, e, Provider, Got(e, ok));
        }
      case HandlerFinish(h) =>
        if h in s.handlers && s.handlers[h].work.Got? {
          WorkedRowExists(s, h);
          var status := if s.handlers[h].work.ok then Succeeded else Failed;
          StatusKeepsInv(s, s.handlers[h].work.exec, status);
          HandlerProgressKeepsInv(s.(executions := WithStatus(s.executions, s.handlers[h].work.exec, status)), h,
                                  s.handlers[h].(work := Free));
        }
    }
  }

  // ----- every run

  lemma {:induction false} RunKeepsInv(s: State, steps: seq<Step>)
    requires Inv(s)
    ensures Inv(Run(s, steps))
    decreases |steps|
  {
    hide Inv;
    if steps != [] {
      var before, step := Run(s, steps[..|steps| - 1]), steps[|steps| - 1];
      RunKeepsInv(s, steps[..|steps| - 1]);
      if ByHandler(step) { HandlerStepKeepsInv(before, step); } else { CallerStepKeepsInv(before, step); }
    }
  }

  lemma {:induction false} TwoEntriesCountTwice(log: seq<Event>, e: ExecId, k: Call, i: nat, j: nat)
    requires i < j < |log| && log[i] == Called(e, k) && log[j] == Called(e, k)
    ensures Count(log, e, k) >= 2
    decreases |log|
  {
    var n := |log| - 1;
    if j < n { TwoEntriesCountTwice(log[..n], e, k, i, j); } else { OneEntryCounts(log[..n], e, k, i); }
  }

  lemma {:induction false} OneEntryCounts(log: seq<Event>, e: ExecId, k: Call, i: nat)
    requires i < |log| && log[i] == Called(e, k)
    ensures Count(log, e, k) >= 1
    decreases |log|
  {
    if i < |log| - 1 { OneEntryCounts(log[..|log| - 1], e, k, i); }
  }

  /** Entry `i` of the log is a call of kind `k` for a row that carries this idempotency key. */
  predicate CallsForKey(s: State, i: nat, key: Key, k: Call) {
    i < |s.log| && s.log[i].Called? && s.log[i].call == k
    && s.log[i].exec in s.executions && s.executions[s.log[i].exec].key == key
  }

  /** Nothing is called that has no row, hence no key. */
  lemma EveryCallHasAKey(steps: seq<Step>, i: nat)
    requires i < |Run(START, steps).log| && Run(START, steps).log[i].Called?
    ensures var s := Run(START, steps);
      s.log[i].exec in s.executions && CallsForKey(s, i, s.executions[s.log[i].exec].key, s.log[i].call)
  {
    hide Run, Count;
    InvAtStart();
    RunKeepsInv(START, steps);
    assert EventOk(Run(START, steps), i);
  }

  /**
   * At most once: in every interleaving of Execute calls, approval handlers and expiry, the provider is called
   * at most once for all rows with one idempotency key (and so is the web search that may precede it).
   */
  lemma AtMostOncePerKey(steps: seq<Step>, key: Key, k: Call, i: nat, j: nat)
    requires CallsForKey(Run(START, steps), i, key, k) && CallsForKey(Run(START, steps), j, key, k)
    ensures i == j
  {
    hide Run, Count;
    InvAtStart();
    RunKeepsInv(START, steps);
    var s := Run(START, steps);
    var e := s.log[i].exec;
    assert s.log[j] == Called(e, k);
    assert RowOk(s, e);
    if i < j { TwoEntriesCountTwice(s.log, e, k, i, j); }
    if j < i { TwoEntriesCountTwice(s.log, e, k, j, i); }
  }

  /**
   * The approval gate: a gated row is run only behind the grant of its own approval, made before it expired and by
   * a user of the row's own organization.
   */
  lemma RunOnlyBehindGrant(steps: seq<Step>, i: nat)
    requires var s := Run(START, steps);
      i < |s.log| && s.log[i].Called? && s.log[i].exec in s.executions && s.executions[s.log[i].exec].approval.Some?
    ensures var s := Run(START, steps); var a := s.executions[s.log[i].exec].approval.value;
      && a in s.approvals && s.approvals[a].status == Approved
      && exists j :: 0 <= j < i && s.log[j].Decided? && s.log[j].approval == a && s.log[j].decision == Approved
           && s.log[j].at <= s.approvals[a].expiresAt
           && s.log[j].org == s.executions[s.log[i].exec].org == s.approvals[a].org
  {
    hide Run, Count;
    InvAtStart();
    RunKeepsInv(START, steps);
    assert EventOk(Run(START, steps), i);
  }

  /** What a row's status says about the outside: succeeded rows were run, waiting ones were not. */
  lemma StatusTellsTheTruth(steps: seq<Step>, e: ExecId)
    requires e in Run(START, steps).executions
    ensures var s := Run(START, steps);
      && (s.executions[e].status.Succeeded? ==> Called(e, Search) in s.log || Called(e, Provider) in s.log)
      && (s.executions[e].status.ApprovalRequired? ==> Called(e, Search) !in s.log && Called(e, Provider) !in s.log)
  {
    hide Run;
    InvAtStart();
    RunKeepsInv(START, steps);
    var s := Run(START, steps);
    assert RowOk(s, e);
    CountsMembership(s.log, e, Search);
    CountsMembership(s.log, e, Provider);
  }

  lemma {:induction false} CountsMembership(log: seq<Event>, e: ExecId, k: Call)
    ensures Count(log, e, k) > 0 <==> Called(e, k) in log
    decreases |log|
  {
    if log != [] {
      CountsMembership(log[..|log| - 1], e, k);
      assert log == log[..|log| - 1] + [log[|log| - 1]];
    }
  }

  // ----- what ends the pending status of an approval

  /** `step` is a handler's decision `d` on approval `a`, made in time by a user of its own organization. */
  predicate DecidesInTime(s: State, step: Step, a: ApprovalId, d: Decision)
    requires a in s.approvals
  {
    && ((step.Approve? && d.Approved?) || (step.Reject? && d.Rejected?) || (step.Cancel? && d.Cancelled?))
    && step.approval == a && step.org == s.approvals[a].org && step.h !in s.handlers
    && s.clock <= step.now <= s.approvals[a].expiresAt
  }

  /** `step` comes when the time of approval `a` is over: a sweep, or a decision by its own organization. */
  predicate ComesTooLate(s: State, step: Step, a: ApprovalId)
    requires a in s.approvals
  {
    || (step.ExpirePending? && s.clock <= step.now && s.approvals[a].expiresAt < step.now)
    || ((step.Approve? || step.Reject? || step.Cancel?)
        && step.approval == a && step.org == s.approvals[a].org && step.h !in s.handlers
        && s.clock <= step.now && s.approvals[a].expiresAt < step.now)
  }

  /**
   * Who may decide, and what: a pending approval becomes approved, rejected or cancelled exactly by that decision of
   * its own organization before it expires, becomes expired exactly by a sweep or a decision after that, and keeps
   * its organization and its time. No step of any other organization does anything to it.
   */
  lemma PendingBecomesIff(s: State, step: Step, a: ApprovalId)
    requires a in s.approvals && s.approvals[a].status.Pending?
    ensures a in Apply(s, step).approvals
    ensures var now := Apply(s, step).approvals[a];
      && now.org == s.approvals[a].org && now.expiresAt == s.approvals[a].expiresAt
      && (forall d :: d in {Approved, Rejected, Cancelled} ==> (now.status == d <==> DecidesInTime(s, step, a, d)))
      && (now.status == Expired <==> ComesTooLate(s, step, a))
  {
    if ByHandler(step) { PendingBecomesByHandler(s, step, a); } else { CallersLeaveApprovals(s, step, a); }
  }

  lemma CallersLeaveApprovals(s: State, step: Step, a: ApprovalId)
    requires a in s.approvals && !ByHandler(step)
    ensures a in CallerStep(s, step).approvals && CallerStep(s, step).approvals[a] == s.approvals[a]
  {
    hide KeyTaken, KeyKnown;
  }

  lemma PendingBecomesByHandler(s: State, step: Step, a: ApprovalId)
    requires a in s.approvals && s.approvals[a].status.Pending? && ByHandler(step)
    ensures a in HandlerStep(s, step).approvals
    ensures var now := HandlerStep(s, step).approvals[a];
      && now.org == s.approvals[a].org && now.expiresAt == s.approvals[a].expiresAt
      && (forall d :: d in {Approved, Rejected, Cancelled} ==> (now.status == d <==> DecidesInTime(s, step, a, d)))
      && (now.status == Expired <==> ComesTooLate(s, step, a))
  {
    hide HandlerStep, DecideStep;
    HandlerStepParts(s, step);
    match step {
      case Approve(h, org, b, now) => PendingBecomesByDecision(s, h, org, b, Approved, now, a);
      case Reject(h, org, b, now) => PendingBecomesByDecision(s, h, org, b, Rejected, now, a);
      case Cancel(h, org, b, now) => PendingBecomesByDecision(s, h, org, b, Cancelled, now, a);
      case ExpirePending(now) =>
      case _ =>
    }
  }

  lemma HandlerStepParts(s: State, step: Step)
    requires ByHandler(step)
    ensures step.Approve? ==> HandlerStep(s, step) == DecideStep(s, step.h, step.org, step.approval, Approved, step.now)
    ensures step.Reject? ==> HandlerStep(s, step) == DecideStep(s, step.h, step.org, step.approval, Rejected, step.now)
    ensures step.Cancel? ==> HandlerStep(s, step) == DecideStep(s, step.h, step.org, step.approval, Cancelled, step.now)
    ensures step.ExpirePending? ==>
      HandlerStep(s, step).approvals == if step.now < s.clock then s.approvals else AfterExpiry(s.approvals, step.now)
    ensures !step.Approve? && !step.Reject? && !step.Cancel? && !step.ExpirePending? ==>
      HandlerStep(s, step).approvals == s.approvals
  {
    hide DecideStep, AfterExpiry, WithStatus, RowsOf;
  }

  lemma PendingBecomesByDecision(s: State, h: HandlerId, org: OrgId, b: ApprovalId, d: Decision, now: int, a: ApprovalId)
    requires a in s.approvals && s.approvals[a].status.Pending? && d in {Approved, Rejected, Cancelled}
    ensures a in DecideStep(s, h, org, b, d, now).approvals
    ensures
      var mine := b == a && org == s.approvals[a].org && h !in s.handlers && s.clock <= now;
      DecideStep(s, h, org, b, d, now).approvals[a] ==
        if mine && now <= s.approvals[a].expiresAt then s.approvals[a].(status := d, decider := Some(h))
        else if mine then s.approvals[a].(status := Expired) else s.approvals[a]
  {
  }

  /** Decisions are final: whatever happens later, a decided approval keeps its status. */
  lemma StepKeepsDecision(s: State, step: Step, a: ApprovalId)
    requires a in s.approvals
    ensures a in Apply(s, step).approvals
    ensures !s.approvals[a].status.Pending? ==> Apply(s, step).approvals[a].status == s.approvals[a].status
  {
    hide CallerStep, HandlerStep;
    if ByHandler(step) { HandlerStepParts(s, step); } else { CallersLeaveApprovals(s, step, a); }
  }

  lemma {:induction false} DecisionsAreFinal(s: State, steps: seq<Step>, a: ApprovalId)
    requires a in s.approvals && !s.approvals[a].status.Pending?
    ensures a in Run(s, steps).approvals && Run(s, steps).approvals[a].status == s.approvals[a].status
    decreases |steps|
  {
    hide Apply;
    if steps != [] {
      DecisionsAreFinal(s, steps[..|steps| - 1], a);
      StepKeepsDecision(Run(s, steps[..|steps| - 1]), steps[|steps| - 1], a);
    }
  }

  lemma {:induction false} RunConcat(s: State, a: seq<Step>, b: seq<Step>)
    ensures Run(s, a + b) == Run(Run(s, a), b)
    decreases |b|
  {
    hide Apply;
    if b == [] {
      assert a + b == a;
    } else {
      assert (a + b)[..|a + b| - 1] == a + b[..|b| - 1];
      RunConcat(s, a, b[..|b| - 1]);
    }
  }

  /** A row whose approval ended rejected, cancelled or expired is not run, then or ever after. */
  lemma RefusedRowIsNeverRun(steps: seq<Step>, more: seq<Step>, a: ApprovalId, e: ExecId, k: Call)
    requires a in Run(START, steps).approvals
    requires Run(START, steps).approvals[a].status in {Rejected, Cancelled, Expired}
    requires var u := Run(START, steps + more); e in u.executions && u.executions[e].approval == Some(a)
    ensures Called(e, k) !in Run(START, steps + more).log
  {
    hide Run, Count, Inv;
    RunConcat(START, steps, more);
    DecisionsAreFinal(Run(START, steps), more, a);
    var u := Run(START, steps + more);
    if Called(e, k) in u.log {
      var i :| 0 <= i < |u.log| && u.log[i] == Called(e, k);
      RunOnlyBehindGrant(steps + more, i);
      assert false;
    }
  }
}
