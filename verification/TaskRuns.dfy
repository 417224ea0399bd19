/** What holds in every state that any sequence of repository and orchestrator calls can reach. */
module TaskRuns {
  import opened TaskGraph
  import opened TaskStore

  datatype Step =
    | Create(id: TaskId, org: OrgId, toAgent: bool)
    | Update(org: OrgId, id: TaskId, to: Status)
    | Assign(org: OrgId, id: TaskId)
    | Depend(task: TaskId, dependsOn: TaskId)
    | Delegate(org: OrgId, parent: TaskId, sub: TaskId, inTeam: bool)
    | Evaluate(org: OrgId, id: TaskId)

  ghost function Apply(db: Db, s: Step): Db {
    match s
    case Create(id, org, toAgent) => TaskCreated(db, id, org, toAgent).1
    case Update(org, id, to) => StatusUpdated(db, org, id, to).1
    case Assign(org, id) => TaskAssigned(db, org, id).1
    case Depend(task, dependsOn) => DependencyAdded(db, task, dependsOn).1
    case Delegate(org, parent, sub, inTeam) => Delegated(db, org, parent, sub, inTeam).1
    case Evaluate(org, id) => Evaluated(db, org, id).1
  }

  /** The tables after the calls `steps`, starting from empty tables. */
  ghost function Run(steps: seq<Step>): Db {
    if steps == [] then EMPTY else Apply(Run(steps[..|steps| - 1]), steps[|steps| - 1])
  }

  // ----- the dependency graph

  ghost predicate EndpointsExist(db: Db) {
    forall e :: e in db.dependencies ==> e.task in db.tasks && e.dependsOn in db.tasks
  }

  ghost predicate GraphOk(db: Db) { Acyclic(db.dependencies) && EndpointsExist(db) }

  lemma DependKeepsGraph(db: Db, task: TaskId, dependsOn: TaskId)
    requires GraphOk(db)
    ensures GraphOk(DependencyAdded(db, task, dependsOn).1)
  {
    InsertKeepsAcyclicIff(db.dependencies, Edge(task, dependsOn));
  }

  /** A task no row mentions reaches only itself. */
  lemma FreshReachesNothing(g: Graph, lone: TaskId, other: TaskId)
    requires forall e :: e in g ==> e.task != lone
    requires lone != other
    ensures !Reaches(g, lone, other)
  {
    if Reaches(g, lone, other) {
      var p :| WalkFromTo(g, p, lone, other);
      ClosedSetTraps(g, {lone}, p, lone, other);
    }
  }

  /** Delegation never loses its dependency: the parent waits for the subtask it has just created. */
  lemma DelegateAlwaysLinks(db: Db, org: OrgId, parent: TaskId, sub: TaskId, inTeam: bool)
    requires GraphOk(db) && Delegated(db, org, parent, sub, inTeam).0 == Ok
    ensures Edge(parent, sub) in Delegated(db, org, parent, sub, inTeam).1.dependencies
    ensures IsBlocked(Delegated(db, org, parent, sub, inTeam).1, parent)
    ensures GraphOk(Delegated(db, org, parent, sub, inTeam).1)
  {
    FreshReachesNothing(db.dependencies, sub, parent);
    var after := Delegated(db, org, parent, sub, inTeam).1;
    var row := Task(org, Assigned, [CreatedEvent, AssignedEvent], 0, 3, 1, MAX_DELEGATION_DEPTH);
    var deepened := Db(db.tasks[sub := row], db.dependencies);
    assert deepened.tasks[sub] == row;
    DependKeepsGraph(deepened, parent, sub);
    assert after.tasks[sub].status == Assigned;
    assert !IsCompleted(after, sub);
  }

  lemma StepKeepsGraph(db: Db, s: Step)
    requires GraphOk(db)
    ensures GraphOk(Apply(db, s))
  {
    match s {
      case Depend(task, dependsOn) => DependKeepsGraph(db, task, dependsOn);
      case Delegate(org, parent, sub, inTeam) =>
        if Delegated(db, org, parent, sub, inTeam).0 == Ok { DelegateAlwaysLinks(db, org, parent, sub, inTeam); }
      case _ =>
    }
  }

  /** Safety over whole runs: no sequence of calls ever makes the dependency table cyclic. */
  lemma {:induction false} GraphStaysAcyclic(steps: seq<Step>)
    ensures GraphOk(Run(steps))
    ensures forall p :: !Cycle(Run(steps).dependencies, p)
  {
    if steps != [] {
      GraphStaysAcyclic(steps[..|steps| - 1]);
      StepKeepsGraph(Run(steps[..|steps| - 1]), steps[|steps| - 1]);
    }
    AcyclicIffNoCycle(Run(steps).dependencies);
  }

  /** No dependency deadlock: as long as a task is not completed, some such task is not blocked. */
  lemma SomeTaskIsUnblocked(steps: seq<Step>, id: TaskId) returns (ready: TaskId)
    requires id in Run(steps).tasks && !IsCompleted(Run(steps), id)
    ensures ready in Run(steps).tasks && !IsCompleted(Run(steps), ready) && !IsBlocked(Run(steps), ready)
  {
    var db := Run(steps);
    GraphStaysAcyclic(steps);
    var open := set t | t in db.tasks && !IsCompleted(db, t);
    assert id in open;
    ready := SinkExists(db.dependencies, open);
  }

  // ----- the task lifecycle

  /** The statuses that only a task which has been started since its last assignment can have. */
  predicate AfterStart(s: Status) {
    s.Running? || s.Waiting? || s.Blocked? || s.ApprovalRequired? || s.Completed? || s.Failed?
  }

  /** At some point of the run the task was started, and it has not been reset or reassigned since. */
  ghost predicate WasStarted(steps: seq<Step>, id: TaskId) {
    exists k :: 0 <= k <= |steps| && StartedAt(steps[..k], id) && ActiveSince(steps, id, k)
  }

  ghost predicate ActiveSince(steps: seq<Step>, id: TaskId, k: nat) {
    forall j :: k <= j <= |steps| ==> ActiveAt(steps[..j], id)
  }

  ghost predicate ActiveAt(steps: seq<Step>, id: TaskId) {
    id in Run(steps).tasks && AfterStart(Run(steps).tasks[id].status)
  }

  ghost predicate StartedAt(steps: seq<Step>, id: TaskId) {
    id in Run(steps).tasks && Run(steps).tasks[id].status == Running
    && Run(steps).tasks[id].log != [] && Run(steps).tasks[id].log[|Run(steps).tasks[id].log| - 1] == StartedEvent
  }

  /** One call, seen from one task: its row is untouched, only logged on, created, or moved. */
  lemma StepOnTask(db: Db, s: Step, id: TaskId)
    ensures id in db.tasks ==> id in Apply(db, s).tasks
    ensures id !in db.tasks && id in Apply(db, s).tasks ==>
      Apply(db, s).tasks[id].status in {Pending, Assigned} && Apply(db, s).tasks[id].log[0] == CreatedEvent
    ensures id in db.tasks ==>
      && Apply(db, s).tasks[id].org == db.tasks[id].org
      && db.tasks[id].log <= Apply(db, s).tasks[id].log
      && (var was, now := db.tasks[id].status, Apply(db, s).tasks[id].status;
          || now == was
          || (now == Assigned && s == Assign(db.tasks[id].org, id))
          || (now in Transitions(was) && !Legacy(now)
              && Apply(db, s).tasks[id].log == db.tasks[id].log + [EventFor(now)]))
  {
  }

  /** Only its own organization changes the status of a task: by an update, an assignment or an evaluation of that task. */
  lemma OnlyOwnerChangesStatus(db: Db, s: Step, id: TaskId)
    requires id in db.tasks && Apply(db, s).tasks[id].status != db.tasks[id].status
    ensures s.Update? || s.Assign? || s.Evaluate?
    ensures s.id == id && s.org == db.tasks[id].org
  {
  }

  lemma {:induction false} LifecycleInvariant(steps: seq<Step>, id: TaskId)
    requires id in Run(steps).tasks
    ensures !Legacy(Run(steps).tasks[id].status) && ValidStatus(Run(steps).tasks[id].status)
    ensures AfterStart(Run(steps).tasks[id].status) ==> WasStarted(steps, id)
  {
    hide Apply;
    var n := |steps|;
    assert steps[..n] == steps;
    var before, last := steps[..n - 1], steps[n - 1];
    StepOnTask(Run(before), last, id);
    if id in Run(before).tasks {
      LifecycleInvariant(before, id);
      if AfterStart(Run(steps).tasks[id].status) {
        if AfterStart(Run(before).tasks[id].status) {
          var k :| 0 <= k <= |before| && StartedAt(before[..k], id) && ActiveSince(before, id, k);
          forall j | k <= j <= n ensures ActiveAt(steps[..j], id) {
            if j < n { assert steps[..j] == before[..j]; }
          }
          assert steps[..k] == before[..k];
          assert ActiveSince(steps, id, k);
        } else {
          assert StartedAt(steps[..n], id) && ActiveSince(steps, id, n);
        }
      }
    }
  }

  /**
   * A completed task was running before, with its started event in the log, and was not reassigned in
   * between; so every completion is preceded by a start of its own.
   */
  lemma CompletedWasStarted(steps: seq<Step>, id: TaskId)
    requires id in Run(steps).tasks && Run(steps).tasks[id].status == Completed
    ensures exists k :: 0 <= k < |steps| && StartedAt(steps[..k], id) && ActiveSince(steps, id, k)
    ensures StartedEvent in Run(steps).tasks[id].log
  {
    hide Apply, Run;
    LifecycleInvariant(steps, id);
    var k :| 0 <= k <= |steps| && StartedAt(steps[..k], id) && ActiveSince(steps, id, k);
    assert steps[..|steps|] == steps;
    LogGrows(steps, k, id);
  }

  /** Events are only ever appended. */
  lemma {:induction false} LogGrows(steps: seq<Step>, k: nat, id: TaskId)
    requires k <= |steps| && id in Run(steps[..k]).tasks
    ensures id in Run(steps).tasks && Run(steps[..k]).tasks[id].log <= Run(steps).tasks[id].log
  {
    hide Apply;
    if k < |steps| {
      assert steps[..|steps| - 1][..k] == steps[..k];
      LogGrows(steps[..|steps| - 1], k, id);
      StepOnTask(Run(steps[..|steps| - 1]), steps[|steps| - 1], id);
    } else {
      assert steps[..k] == steps;
    }
  }

  /** The task had this status at some moment of the run. */
  ghost predicate Had(steps: seq<Step>, id: TaskId, status: Status) {
    exists k :: 0 <= k <= |steps| && StatusAt(steps[..k], id, status)
  }

  ghost predicate StatusAt(steps: seq<Step>, id: TaskId, status: Status) {
    id in Run(steps).tasks && Run(steps).tasks[id].status == status
  }

  lemma HadBefore(steps: seq<Step>, id: TaskId, status: Status)
    requires steps != []
    ensures Had(steps, id, status) <==> Had(steps[..|steps| - 1], id, status) || StatusAt(steps, id, status)
  {
    hide Run, StatusAt;
    var n := |steps| - 1;
    assert steps[..n + 1] == steps;
    forall k | 0 <= k <= n ensures steps[..n][..k] == steps[..k] {}
    if Had(steps[..n], id, status) {
      var k :| 0 <= k <= n && StatusAt(steps[..n][..k], id, status);
      assert StatusAt(steps[..k], id, status);
    }
    if Had(steps, id, status) && !StatusAt(steps, id, status) {
      var k :| 0 <= k <= |steps| && StatusAt(steps[..k], id, status);
      assert StatusAt(steps[..n][..k], id, status);
    }
  }

  /** What one call may add to the log of a task. */
  lemma StepOnLog(db: Db, s: Step, id: TaskId)
    requires id in db.tasks
    ensures id in Apply(db, s).tasks
    ensures var was, now := db.tasks[id], Apply(db, s).tasks[id];
      && (forall e :: e in {StartedEvent, CompletedEvent, FailedEvent} ==>
            (e in now.log <==> e in was.log || (s.Update? && now != was && e == EventOf(now.status))))
      && (now.status in {Running, Completed, Failed} && now.status != was.status ==> s.Update? && now != was)
  {
    hide Transitions;
  }

  /** The event that tells of a status. */
  function EventOf(status: Status): Event {
    match status
    case Running => StartedEvent
    case Completed => CompletedEvent
    case Failed => FailedEvent
    case _ => StatusChangedEvent
  }

  /** The log tells the truth: it holds a started, completed or failed event exactly if the task has had that status. */
  lemma {:induction false} LogTells(steps: seq<Step>, id: TaskId, status: Status)
    requires id in Run(steps).tasks && status in {Running, Completed, Failed}
    ensures EventOf(status) in Run(steps).tasks[id].log <==> Had(steps, id, status)
  {
    hide Apply;
    var before, last := steps[..|steps| - 1], steps[|steps| - 1];
    HadBefore(steps, id, status);
    if id in Run(before).tasks {
      LogTells(before, id, status);
      StepOnLog(Run(before), last, id);
      if StatusAt(before, id, status) { assert before[..|before|] == before; }
    } else {
      CreatedLog(Run(before), last, id);
      NeverHad(before, id, status);
    }
  }

  lemma CreatedLog(db: Db, s: Step, id: TaskId)
    requires id !in db.tasks && id in Apply(db, s).tasks
    ensures var now := Apply(db, s).tasks[id];
      now.status in {Pending, Assigned} && forall e :: e in now.log ==> e in {CreatedEvent, AssignedEvent}
  {
  }

  lemma {:induction false} NeverHad(steps: seq<Step>, id: TaskId, status: Status)
    requires id !in Run(steps).tasks
    ensures !Had(steps, id, status)
  {
    hide Apply;
    if steps == [] {
      assert Run(steps) == EMPTY;
    } else {
      HadBefore(steps, id, status);
      StepOnTask(Run(steps[..|steps| - 1]), steps[|steps| - 1], id);
      NeverHad(steps[..|steps| - 1], id, status);
    }
  }

  /** The only call that moves a task out of completed or cancelled is an assignment by its own organization. */
  lemma OnlyAssignReopens(steps: seq<Step>, s: Step, id: TaskId)
    requires id in Run(steps).tasks && Run(steps).tasks[id].status in {Completed, Cancelled}
    requires Run(steps + [s]).tasks[id].status != Run(steps).tasks[id].status
    ensures s == Assign(Run(steps).tasks[id].org, id) && Run(steps + [s]).tasks[id].status == Assigned
  {
    assert (steps + [s])[..|steps|] == steps;
    StepOnTask(Run(steps), s, id);
  }

  /** Evaluate's retry branch is dead: a failed task is always escalated and keeps its status and retry count. */
  lemma FailedTaskIsNeverRetried(db: Db, org: OrgId, id: TaskId)
    requires id in db.tasks && db.tasks[id].org == org && db.tasks[id].status == Failed && !IsBlocked(db, id)
    ensures Evaluated(db, org, id) == (VEscalated, db)
  {
  }

  // ----- what can still be completed without assigning anything

  predicate NoAssign(steps: seq<Step>) { forall s :: s in steps ==> !s.Assign? }

  /** `more`, behind `steps`, takes the tasks `ids` to completed and touches nothing else. */
  ghost predicate Completes(steps: seq<Step>, more: seq<Step>, ids: set<TaskId>) {
    var was, now := Run(steps), Run(steps + more);
    && NoAssign(more) && now.dependencies == was.dependencies && now.tasks.Keys == was.tasks.Keys
    && (forall i :: i in ids ==> IsCompleted(now, i))
    && (forall i :: i in was.tasks && i !in ids ==> now.tasks[i] == was.tasks[i])
  }

  /** The status to go to next on the way to completed, and how far that is. */
  function Toward(s: Status): Status {
    match s
    case Failed => Pending
    case Pending => Assigned
    case Assigned | Blocked => Running
    case _ => Completed
  }

  function Distance(s: Status): nat {
    match s
    case Failed => 4
    case Pending => 3
    case Assigned | Blocked => 2
    case Completed => 0
    case _ => 1
  }

  lemma UpdateToward(db: Db, id: TaskId)
    requires id in db.tasks && ValidStatus(db.tasks[id].status) && !Legacy(db.tasks[id].status)
    requires !db.tasks[id].status.Completed? && !db.tasks[id].status.Cancelled?
    ensures var was := db.tasks[id]; var now := Apply(db, Update(was.org, id, Toward(was.status)));
      && id in now.tasks && now == db.(tasks := db.tasks[id := now.tasks[id]])
      && now.tasks[id].status == Toward(was.status) && Distance(Toward(was.status)) < Distance(was.status)
  {
  }

  lemma {:induction false} CompleteOne(steps: seq<Step>, id: TaskId) returns (more: seq<Step>)
    requires id in Run(steps).tasks && !Run(steps).tasks[id].status.Cancelled?
    ensures Completes(steps, more, {id})
    decreases Distance(Run(steps).tasks[id].status)
  {
    hide Apply;
    LifecycleInvariant(steps, id);
    var t := Run(steps).tasks[id];
    if t.status == Completed {
      more := [];
      assert steps + [] == steps;
    } else {
      var step := Update(t.org, id, Toward(t.status));
      RunSnoc(steps, step);
      UpdateToward(Run(steps), id);
      var rest := CompleteOne(steps + [step], id);
      more := [step] + rest;
      assert steps + more == steps + [step] + rest;
    }
  }

  lemma {:induction false} CompleteAll(steps: seq<Step>, ids: set<TaskId>) returns (more: seq<Step>)
    requires forall i :: i in ids ==> i in Run(steps).tasks && !Run(steps).tasks[i].status.Cancelled?
    ensures Completes(steps, more, ids)
    decreases |ids|
  {
    hide Run;
    if ids == {} {
      more := [];
      assert steps + [] == steps;
    } else {
      var id :| id in ids;
      var first := CompleteOne(steps, id);
      var rest := CompleteAll(steps + first, ids - {id});
      more := first + rest;
      assert steps + more == steps + first + rest;
    }
  }

  /** Rows of task_dependencies are never removed, and without an assignment a cancelled task stays cancelled. */
  lemma {:induction false} CancelledStays(steps: seq<Step>, more: seq<Step>, id: TaskId)
    requires id in Run(steps).tasks && Run(steps).tasks[id].status.Cancelled? && NoAssign(more)
    ensures id in Run(steps + more).tasks && Run(steps + more).tasks[id].status.Cancelled?
    ensures Run(steps).dependencies <= Run(steps + more).dependencies
    decreases |more|
  {
    hide Apply;
    if more == [] {
      assert steps + more == steps;
    } else {
      var before, last := more[..|more| - 1], more[|more| - 1];
      CancelledStays(steps, before, id);
      assert steps + more == steps + before + [last];
      RunSnoc(steps + before, last);
      StepOnTask(Run(steps + before), last, id);
      StepKeepsRows(Run(steps + before), last);
    }
  }

  lemma StepKeepsRows(db: Db, s: Step)
    ensures db.dependencies <= Apply(db, s).dependencies
  {
  }

  /** In every reachable state: a task can be completed without a call of AssignTask exactly when it is not cancelled. */
  lemma CompletableIff(steps: seq<Step>, id: TaskId)
    requires id in Run(steps).tasks
    ensures (exists more :: NoAssign(more) && IsCompleted(Run(steps + more), id)) <==> !Run(steps).tasks[id].status.Cancelled?
  {
    hide Run;
    if Run(steps).tasks[id].status.Cancelled? {
      forall more | NoAssign(more) ensures !IsCompleted(Run(steps + more), id) { CancelledStays(steps, more, id); }
    } else {
      var more := CompleteOne(steps, id);
    }
  }

  /**
   * In every reachable state: a task stays blocked whatever is called, AssignTask apart, exactly when it waits for a
   * cancelled one.
   */
  lemma BlockedForGoodIff(steps: seq<Step>, id: TaskId)
    ensures (forall more :: NoAssign(more) ==> IsBlocked(Run(steps + more), id))
      <==> exists d :: Edge(id, d) in Run(steps).dependencies && d in Run(steps).tasks && Run(steps).tasks[d].status.Cancelled?
  {
    hide Run;
    var db := Run(steps);
    if d :| Edge(id, d) in db.dependencies && d in db.tasks && db.tasks[d].status.Cancelled? {
      forall more | NoAssign(more) ensures IsBlocked(Run(steps + more), id) { CancelledStays(steps, more, d); }
    } else {
      GraphStaysAcyclic(steps);
      var ids := set e | e in db.dependencies && e.task == id :: e.dependsOn;
      assert forall d :: Edge(id, d) in db.dependencies ==> d in ids;
      var more := CompleteAll(steps, ids);
      assert !IsBlocked(Run(steps + more), id);
    }
  }

  // ----- the delegation bound

  /** `n` delegations, each from the task the previous one created. */
  function DelegationChain(org: OrgId, root: TaskId, n: nat): seq<Step> {
    if n == 0 then [Create(root, org, true)]
    else DelegationChain(org, root, n - 1) + [Delegate(org, root + n - 1, root + n, true)]
  }

  lemma DelegateEffect(db: Db, org: OrgId, parent: TaskId, sub: TaskId)
    requires GraphOk(db) && parent in db.tasks && db.tasks[parent].org == org && sub !in db.tasks
    ensures var after := Delegated(db, org, parent, sub, true).1;
      && after.tasks.Keys == db.tasks.Keys + {sub} && after.tasks[sub].org == org
      && (forall i :: i in db.tasks ==> after.tasks[i].org == db.tasks[i].org)
      && after.dependencies == db.dependencies + {Edge(parent, sub)}
  {
    FreshReachesNothing(db.dependencies, sub, parent);
  }

  lemma RunSnoc(steps: seq<Step>, s: Step)
    ensures Run(steps + [s]) == Apply(Run(steps), s)
  {
    assert (steps + [s])[..|steps|] == steps;
  }

  /** Tasks `root` to `root + n` exist, and each waits for the next one. */
  ghost predicate Chained(db: Db, org: OrgId, root: TaskId, n: nat) {
    && (forall i :: i in db.tasks ==> root <= i <= root + n)
    && (forall i :: root <= i <= root + n ==> i in db.tasks && db.tasks[i].org == org)
    && (forall i, j :: root <= i && j == i + 1 && j <= root + n ==> Edge(i, j) in db.dependencies)
  }

  lemma ChainStarts(org: OrgId, root: TaskId)
    ensures Chained(Run([Create(root, org, true)]), org, root, 0)
  {
    assert [Create(root, org, true)][..0] == [];
    assert Run([Create(root, org, true)]) == TaskCreated(EMPTY, root, org, true).1;
  }

  lemma ChainGrows(db: Db, org: OrgId, root: TaskId, n: nat)
    requires GraphOk(db) && Chained(db, org, root, n)
    ensures Chained(Delegated(db, org, root + n, root + n + 1, true).1, org, root, n + 1)
  {
    hide Delegated, GraphOk;
    assert root + n + 1 !in db.tasks;
    DelegateEffect(db, org, root + n, root + n + 1);
    LongerChain(db, Delegated(db, org, root + n, root + n + 1, true).1, org, root, n);
  }

  lemma LongerChain(db: Db, after: Db, org: OrgId, root: TaskId, n: nat)
    requires Chained(db, org, root, n) && after.tasks.Keys == db.tasks.Keys + {root + n + 1}
    requires after.tasks[root + n + 1].org == org && forall i :: i in db.tasks ==> after.tasks[i].org == db.tasks[i].org
    requires after.dependencies == db.dependencies + {Edge(root + n, root + n + 1)}
    ensures Chained(after, org, root, n + 1)
  {
    forall i, j | root <= i && j == i + 1 && j <= root + n + 1 ensures Edge(i, j) in after.dependencies {
      if j <= root + n { assert Edge(i, j) in db.dependencies; }
    }
  }

  /** The depth bound is not kept: chains of every length are accepted, because GetTask reads depth as zero. */
  lemma {:induction false} DelegationDepthIsUnbounded(org: OrgId, root: TaskId, n: nat)
    ensures Chained(Run(DelegationChain(org, root, n)), org, root, n)
  {
    hide Delegated, TaskCreated, GraphOk;
    if n == 0 {
      ChainStarts(org, root);
    } else {
      var before := DelegationChain(org, root, n - 1);
      DelegationDepthIsUnbounded(org, root, n - 1);
      GraphStaysAcyclic(before);
      RunSnoc(before, Delegate(org, root + n - 1, root + n, true));
      ChainGrows(Run(before), org, root, n - 1);
    }
  }
}
