/**
 * Tool executions and approvals as a state machine: any number of concurrent Execute calls, approval
 * handlers and expiry sweeps, each advancing one statement at a time. A step whose guard does not hold
 * changes nothing.
 */
module ToolProtocol {
  import opened Options

  type OrgId = nat
  type Key = nat
  type ExecId = nat
  type ApprovalId = nat
  type CallerId = nat
  type HandlerId = nat

  const DAY: int := 86_400_000_000_000

  datatype Decision = Pending | Approved | Rejected | Cancelled | Expired

  /** A row of approvals; `decider` is the handler run that decided it. */
  datatype Approval = Approval(org: OrgId, status: Decision, expiresAt: int, decider: Option<HandlerId>)

  datatype Status = ApprovalRequired | Running | Succeeded | Failed

  datatype Tool = Generic | WebSearch | Browser

  /** A row of tool_executions; `creator` is the Execute call that inserted it. */
  datatype Execution = Execution(org: OrgId, key: Key, tool: Tool, status: Status, approval: Option<ApprovalId>,
                                 creator: CallerId)

  datatype Call = Search | Provider

  /** What happened outside the tables, in order; `org` is the organization of the user who decided. */
  datatype Event = Called(exec: ExecId, call: Call) | Decided(approval: ApprovalId, decision: Decision, at: int, org: OrgId)

  // ----- Execute

  datatype Params = Params(org: OrgId, key: Key, tool: Tool, gated: bool)

  datatype Pc = Looking | Checked | Asked(approval: ApprovalId) | Holding(exec: ExecId) | Searched(exec: ExecId)
              | Answered(exec: ExecId, ok: bool) | Left

  datatype Caller = Caller(p: Params, pc: Pc)

  // ----- the approval handlers

  /** Unread: the query for the rows of the approval is still to come. */
  datatype Work = Unread | Free | Ready(exec: ExecId) | Tried(exec: ExecId) | Got(exec: ExecId, ok: bool)

  /** The handler is at work on a row. */
  predicate Busy(w: Work) { w.Ready? || w.Tried? || w.Got? }

  /** A handler run behind its decision: the rows it has still to treat and the one it is treating. */
  datatype Handler = Handler(approving: bool, approval: ApprovalId, todo: set<ExecId>, work: Work)

  /** How the checks at the head of ExecuteApproved end: an error, a row marked failed, or leave to run. */
  datatype Recheck = Broken | Denied | Allowed

  datatype State = State(approvals: map<ApprovalId, Approval>, executions: map<ExecId, Execution>,
                         callers: map<CallerId, Caller>, handlers: map<HandlerId, Handler>, log: seq<Event>, clock: int)

  const START := State(map[], map[], map[], map[], [], 0)

  datatype Step =
    | Begin(c: CallerId, p: Params)
    | Lookup(c: CallerId, pass: bool)
    | Ask(c: CallerId, approval: ApprovalId, now: int, ok: bool)
    | InsertGated(c: CallerId, exec: ExecId, ok: bool)
    | InsertPlain(c: CallerId, exec: ExecId, ok: bool)
    | Admit(c: CallerId, ok: bool)
    | CallerSearch(c: CallerId, ok: bool)
    | CallerProvider(c: CallerId, ok: bool)
    | CallerFinish(c: CallerId)
    | Approve(h: HandlerId, org: OrgId, approval: ApprovalId, now: int)
    | Reject(h: HandlerId, org: OrgId, approval: ApprovalId, now: int)
    | Cancel(h: HandlerId, org: OrgId, approval: ApprovalId, now: int)
    | ExpirePending(now: int)
    | ListRows(h: HandlerId, ok: bool)
    | TakeRow(h: HandlerId, exec: ExecId, check: Recheck)
    | FailRow(h: HandlerId, exec: ExecId)
    | HandlerSearch(h: HandlerId, ok: bool)
    | HandlerProvider(h: HandlerId, ok: bool)
    | HandlerFinish(h: HandlerId)

  // ----- statements on the tables

  predicate KeyKnown(x: map<ExecId, Execution>, org: OrgId, key: Key) {
    exists e :: e in x && x[e].org == org && x[e].key == key
  }

  /** idempotency_key is unique in the whole table. */
  predicate KeyTaken(x: map<ExecId, Execution>, key: Key) { exists e :: e in x && x[e].key == key }

  function WithStatus(x: map<ExecId, Execution>, e: ExecId, status: Status): map<ExecId, Execution> {
    if e in x then x[e := x[e].(status := status)] else x
  }

  function RowsOf(x: map<ExecId, Execution>, a: ApprovalId): set<ExecId> {
    set e | e in x && x[e].approval == Some(a)
  }

  datatype Verdict = NotFound | AlreadyDecided | TooLate | Done

  /** Decide: only a pending approval of the organization, and only until it expires. */
  function Verdicted(approvals: map<ApprovalId, Approval>, org: OrgId, a: ApprovalId, now: int): Verdict {
    if a !in approvals || approvals[a].org != org then NotFound
    else if !approvals[a].status.Pending? then AlreadyDecided
    else if now > approvals[a].expiresAt then TooLate
    else Done
  }

  function AfterDecide(approvals: map<ApprovalId, Approval>, org: OrgId, a: ApprovalId, d: Decision, h: HandlerId,
                       now: int): map<ApprovalId, Approval>
  {
    match Verdicted(approvals, org, a, now)
    case TooLate => approvals[a := approvals[a].(status := Expired)]
    case Done => approvals[a := approvals[a].(status := d, decider := Some(h))]
    case _ => approvals
  }

  function AfterExpiry(approvals: map<ApprovalId, Approval>, now: int): map<ApprovalId, Approval> {
    map a | a in approvals ::
      if approvals[a].status.Pending? && approvals[a].expiresAt < now then approvals[a].(status := Expired) else approvals[a]
  }

  // ----- the steps

  function AtPc(s: State, c: CallerId, pc: Pc): State
    requires c in s.callers
  {
    s.(callers := s.callers[c := s.callers[c].(pc := pc)])
  }

  function AtWork(s: State, h: HandlerId, work: Work): State
    requires h in s.handlers
  {
    s.(handlers := s.handlers[h := s.handlers[h].(work := work)])
  }

  function DecideStep(s: State, h: HandlerId, org: OrgId, a: ApprovalId, d: Decision, now: int): State {
    if h in s.handlers || now < s.clock then s
    else
      var t := s.(approvals := AfterDecide(s.approvals, org, a, d, h, now), clock := now);
      if !Verdicted(s.approvals, org, a, now).Done? then t
      else t.(log := s.log + [Decided(a, d, now, org)],
              handlers := s.handlers[h := Handler(d == Approved, a, {}, if d == Cancelled then Free else Unread)])
  }

  function CallerStep(s: State, step: Step): State {
    match step
    case Begin(c, p) => if c in s.callers then s else s.(callers := s.callers[c := Caller(p, Looking)])
    case Lookup(c, pass) =>
      if c !in s.callers || !s.callers[c].pc.Looking? then s
      else if KeyKnown(s.executions, s.callers[c].p.org, s.callers[c].p.key) || !pass then AtPc(s, c, Left)
      else AtPc(s, c, Checked)
    case Ask(c, a, now, ok) =>
      if c !in s.callers || !s.callers[c].pc.Checked? || !s.callers[c].p.gated || a in s.approvals || now < s.clock then s
      else if !ok then AtPc(s, c, Left)
      else AtPc(s, c, Asked(a)).(approvals := s.approvals[a := Approval(s.callers[c].p.org, Pending, now + DAY, None)], clock := now)
    case InsertGated(c, e, ok) =>
      if c !in s.callers || !s.callers[c].pc.Asked? || e in s.executions then s
      else
        var p := s.callers[c].p;
        if !ok || KeyTaken(s.executions, p.key) then AtPc(s, c, Left)
        else AtPc(s, c, Left).(executions := s.executions[e :=
          Execution(p.org, p.key, p.tool, ApprovalRequired, Some(s.callers[c].pc.approval), c)])
    case InsertPlain(c, e, ok) =>
      if c !in s.callers || !s.callers[c].pc.Checked? || s.callers[c].p.gated || e in s.executions then s
      else
        var p := s.callers[c].p;
        if !ok || KeyTaken(s.executions, p.key) then AtPc(s, c, Left)
        else AtPc(s, c, Holding(e)).(executions := s.executions[e := Execution(p.org, p.key, p.tool, Running, None, c)])
    case Admit(c, ok) =>
      if c !in s.callers || !s.callers[c].pc.Holding? || !s.callers[c].p.tool.Browser? || ok then s
      else AtPc(s, c, Left).(executions := WithStatus(s.executions, s.callers[c].pc.exec, Failed))
    case CallerSearch(c, ok) =>
      if c !in s.callers || !s.callers[c].pc.Holding? || !s.callers[c].p.tool.WebSearch? then s
      else
        var e := s.callers[c].pc.exec;
        AtPc(s, c, if ok then Answered(e, true) else Searched(e)).(log := s.log + [Called(e, Search)])
    case CallerProvider(c, ok) =>
      if c !in s.callers then s
      else
        var caller := s.callers[c];
        if caller.pc.Searched? || (caller.pc.Holding? && !caller.p.tool.WebSearch?)
        then AtPc(s, c, Answered(caller.pc.exec, ok)).(log := s.log + [Called(caller.pc.exec, Provider)])
        else s
    case CallerFinish(c) =>
      if c !in s.callers || !s.callers[c].pc.Answered? then s
      else AtPc(s, c, Left).(executions :=
        WithStatus(s.executions, s.callers[c].pc.exec, if s.callers[c].pc.ok then Succeeded else Failed))
    case _ => s
  }

  function HandlerStep(s: State, step: Step): State {
    match step
    case Approve(h, org, a, now) => DecideStep(s, h, org, a, Approved, now)
    case Reject(h, org, a, now) => DecideStep(s, h, org, a, Rejected, now)
    case Cancel(h, org, a, now) => DecideStep(s, h, org, a, Cancelled, now)
    case ExpirePending(now) =>
      if now < s.clock then s else s.(approvals := AfterExpiry(s.approvals, now), clock := now)
    case ListRows(h, ok) =>
      if h !in s.handlers || !s.handlers[h].work.Unread? then s
      else
        var r := s.handlers[h];
        s.(handlers := s.handlers[h := r.(todo := if ok then RowsOf(s.executions, r.approval) else {}, work := Free)])
    case TakeRow(h, e, check) =>
      if h !in s.handlers || !s.handlers[h].approving || !s.handlers[h].work.Free? || e !in s.handlers[h].todo then s
      else
        var rest := s.handlers[h].(todo := s.handlers[h].todo - {e});
        var taken := s.(handlers := s.handlers[h := rest]);
        if check.Broken? || e !in s.executions then taken
        else if check.Denied? then taken.(executions := WithStatus(s.executions, e, Failed))
        else if s.executions[e].status.Succeeded? then taken
        else taken.(executions := WithStatus(s.executions, e, Running), handlers := s.handlers[h := rest.(work := Ready(e))])
    case FailRow(h, e) =>
      if h !in s.handlers || s.handlers[h].approving || !s.handlers[h].work.Free? || e !in s.handlers[h].todo then s
      else s.(handlers := s.handlers[h := s.handlers[h].(todo := s.handlers[h].todo - {e})],
              executions := WithStatus(s.executions, e, Failed))
    case HandlerSearch(h, ok) =>
      if h !in s.handlers || !s.handlers[h].work.Ready? || s.handlers[h].work.exec !in s.executions
         || !s.executions[s.handlers[h].work.exec].tool.WebSearch? then s
      else
        var e := s.handlers[h].work.exec;
        AtWork(s, h, if ok then Got(e, true) else Tried(e)).(log := s.log + [Called(e, Search)])
    case HandlerProvider(h, ok) =>
      if h !in s.handlers then s
      else
        var w := s.handlers[h].work;
        if w.Tried? || (w.Ready? && w.exec in s.executions && !s.executions[w.exec].tool.WebSearch?)
        then AtWork(s, h, Got(w.exec, ok)).(log := s.log + [Called(w.exec, Provider)])
        else s
    case HandlerFinish(h) =>
      if h !in s.handlers || !s.handlers[h].work.Got? then s
      else AtWork(s, h, Free).(executions :=
        WithStatus(s.executions, s.handlers[h].work.exec, if s.handlers[h].work.ok then Succeeded else Failed))
    case _ => s
  }

  predicate ByHandler(step: Step) {
    step.Approve? || step.Reject? || step.Cancel? || step.ExpirePending? || step.ListRows? || step.TakeRow? || step.FailRow?
    || step.HandlerSearch? || step.HandlerProvider? || step.HandlerFinish?
  }

  function Apply(s: State, step: Step): State { if ByHandler(step) then HandlerStep(s, step) else CallerStep(s, step) }

  function Run(s: State, steps: seq<Step>): State
    decreases |steps|
  {
    if steps == [] then s else Apply(Run(s, steps[..|steps| - 1]), steps[|steps| - 1])
  }
}
