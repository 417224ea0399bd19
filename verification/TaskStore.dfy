/** The task tables and the operations of the task repository and the team orchestrator on them. */
module TaskStore {
  import opened Options
  import opened TaskGraph

  type OrgId = nat

  datatype Status =
    | Pending | Assigned | Running | Waiting | Blocked | ApprovalRequired | Completed | Failed | Cancelled
    | Todo | InProgress | InReview | Done     // legacy
    | Unrecognised(name: string)              // any other string a caller may send

  datatype Event = CreatedEvent | AssignedEvent | StartedEvent | DelegatedEvent | CompletedEvent | FailedEvent
                 | StatusChangedEvent

  /** A row of `tasks`, with the rows of `task_events` that belong to it in insertion order. */
  datatype Task = Task(org: OrgId, status: Status, log: seq<Event>,
                       retryCount: nat, maxRetries: nat, depth: nat, maxDepth: nat)

  datatype Db = Db(tasks: map<TaskId, Task>, dependencies: Graph)

  const EMPTY := Db(map[], {})
  const MAX_DELEGATION_DEPTH: nat := 5

  datatype Outcome =
    | Ok | NotFound | InvalidStatus | InvalidTransition | CheckViolation | DuplicateKey | ForeignKeyViolation
    | CycleDetected | DepthExceeded | RetriesExceeded | NotInTeam

  datatype Verdict = VBlocked | VRetry | VEscalated | VReady | VPanic

  // ----- status transitions

  predicate ValidStatus(s: Status) { !s.Unrecognised? }

  predicate Legacy(s: Status) { s.Todo? || s.InProgress? || s.InReview? || s.Done? }

  function Transitions(from: Status): set<Status> {
    match from
    case Pending => {Assigned, Cancelled}
    case Assigned => {Running, Cancelled}
    case Running => {Waiting, Blocked, ApprovalRequired, Completed, Failed, Cancelled}
    case Waiting => {Running, Completed, Failed, Cancelled}
    case Blocked => {Running, Cancelled}
    case ApprovalRequired => {Running, Completed, Failed, Cancelled}
    case Completed => {}
    case Failed => {Pending, Cancelled}
    case Cancelled => {}
    case Todo => {Assigned, InProgress, Cancelled}
    case InProgress => {Completed, Failed, Cancelled}
    case InReview => {Completed, Failed}
    case Done => {}
    case Unrecognised(_) => {}
  }

  /** The table read from the other side: from where each status may be entered. */
  function EnteredFrom(to: Status): set<Status> {
    match to
    case Pending => {Failed}
    case Assigned => {Pending, Todo}
    case Running => {Assigned, Waiting, Blocked, ApprovalRequired}
    case Waiting | Blocked | ApprovalRequired => {Running}
    case Completed | Failed => {Running, Waiting, ApprovalRequired, InProgress, InReview}
    case Cancelled => {Pending, Assigned, Running, Waiting, Blocked, ApprovalRequired, Failed, Todo, InProgress}
    case InProgress => {Todo}
    case Todo | InReview | Done | Unrecognised(_) => {}
  }

  lemma TransitionsFromBothSides(from: Status, to: Status)
    ensures to in Transitions(from) <==> from in EnteredFrom(to)
  {
  }

  predicate ValidTransition(from: Status, to: Status) { from == to || to in Transitions(from) }

  function EventFor(s: Status): Event {
    match s
    case Completed => CompletedEvent
    case Failed => FailedEvent
    case Assigned => AssignedEvent
    case Running => StartedEvent
    case _ => StatusChangedEvent
  }

  // ----- what each statement does to the tables

  function TaskCreated(db: Db, id: TaskId, org: OrgId, hasAssignee: bool): (Outcome, Db) {
    if id in db.tasks then (DuplicateKey, db)
    else
      var t := if hasAssignee then Task(org, Assigned, [CreatedEvent, AssignedEvent], 0, 3, 0, MAX_DELEGATION_DEPTH)
               else Task(org, Pending, [CreatedEvent], 0, 3, 0, MAX_DELEGATION_DEPTH);
      (Ok, db.(tasks := db.tasks[id := t]))
  }

  function StatusUpdated(db: Db, org: OrgId, id: TaskId, to: Status): (Outcome, Db) {
    if !ValidStatus(to) then (InvalidStatus, db)
    else if id !in db.tasks || db.tasks[id].org != org then (NotFound, db)
    else
      var t := db.tasks[id];
      if !ValidTransition(t.status, to) then (InvalidTransition, db)
      else if Legacy(to) then (CheckViolation, db)
      else (Ok, db.(tasks := db.tasks[id := t.(status := to, log := t.log + [EventFor(to)])]))
  }

  /** Assignment does not look at the old status; for a foreign organization only the event is written. */
  function TaskAssigned(db: Db, org: OrgId, id: TaskId): (Outcome, Db) {
    if id !in db.tasks then (ForeignKeyViolation, db)
    else
      var t := db.tasks[id];
      var logged := t.(log := t.log + [AssignedEvent]);
      if t.org != org then (NotFound, db.(tasks := db.tasks[id := logged]))
      else (Ok, db.(tasks := db.tasks[id := logged.(status := Assigned)]))
  }

  ghost function DependencyAdded(db: Db, task: TaskId, dependsOn: TaskId): (Outcome, Db) {
    if Reaches(db.dependencies, dependsOn, task) then (CycleDetected, db)
    else if task !in db.tasks || dependsOn !in db.tasks then (ForeignKeyViolation, db)
    else (Ok, db.(dependencies := db.dependencies + {Edge(task, dependsOn)}))
  }

  predicate IsCompleted(db: Db, id: TaskId) { id in db.tasks && db.tasks[id].status == Completed }

  /** Some task this one waits for is not completed (a missing row reads as not completed). */
  ghost predicate IsBlocked(db: Db, id: TaskId) {
    exists d :: Edge(id, d) in db.dependencies && !IsCompleted(db, d)
  }

  /** What GetTask hydrates: the retry and depth columns are never selected, so they read as zero. */
  datatype View = View(status: Status, retryCount: nat, maxRetries: nat, depth: nat, maxDepth: nat)

  function GetTask(db: Db, org: OrgId, id: TaskId): Option<View> {
    if id in db.tasks && db.tasks[id].org == org then Some(View(db.tasks[id].status, 0, 0, 0, 0)) else None
  }

  ghost function Delegated(db: Db, org: OrgId, parent: TaskId, sub: TaskId, inTeam: bool): (Outcome, Db) {
    if GetTask(db, org, parent).None? then (NotFound, db)
    else
      var v := GetTask(db, org, parent).value;
      if v.depth >= v.maxDepth && v.maxDepth > 0 then (DepthExceeded, db)
      else if v.depth >= MAX_DELEGATION_DEPTH then (DepthExceeded, db)
      else if v.retryCount >= v.maxRetries && v.maxRetries > 0 then (RetriesExceeded, db)
      else if !inTeam then (NotInTeam, db)
      else if TaskCreated(db, sub, org, true).0 != Ok then (DuplicateKey, db)
      else
        var created := TaskCreated(db, sub, org, true).1;
        var deepened := created.(tasks := created.tasks[sub := created.tasks[sub].(depth := v.depth + 1)]);
        var linked := DependencyAdded(deepened, parent, sub).1;
        var p := linked.tasks[parent];
        (Ok, linked.(tasks := linked.tasks[parent := p.(log := p.log + [DelegatedEvent])]))
  }

  ghost function Evaluated(db: Db, org: OrgId, id: TaskId): (Verdict, Db) {
    if IsBlocked(db, id) then (VBlocked, StatusUpdated(db, org, id, Blocked).1)
    else if GetTask(db, org, id).None? then (VPanic, db)
    else RetriedOrEscalated(db, id, GetTask(db, org, id).value)
  }

  /** The second half of Evaluate, on the task as it was loaded. */
  function RetriedOrEscalated(db: Db, id: TaskId, v: View): (Verdict, Db) {
    if v.status == Failed && v.retryCount < v.maxRetries then
      if id !in db.tasks then (VRetry, db)
      else
        var t := db.tasks[id];
        (VRetry, db.(tasks := db.tasks[id := t.(retryCount := t.retryCount + 1, status := Pending)]))
    else if v.status == Failed then (VEscalated, db)
    else (VReady, db)
  }

  // ----- the repository and the orchestrator, changing the tables in place

  class Repository {
    var tasks: map<TaskId, Task>
    var dependencies: Graph

    ghost function Tables(): Db
      reads this
    {
      Db(tasks, dependencies)
    }

    constructor ()
      ensures Tables() == EMPTY
    {
      tasks, dependencies := map[], {};
    }

    method CreateTask(id: TaskId, org: OrgId, hasAssignee: bool) returns (r: Outcome)
      modifies this
      ensures (r, Tables()) == TaskCreated(old(Tables()), id, org, hasAssignee)
      ensures (r == Ok <==> id !in old(tasks)) && dependencies == old(dependencies) && (r != Ok ==> tasks == old(tasks))
      ensures r == Ok ==>
        id in tasks && tasks == old(tasks)[id := tasks[id]] && tasks[id].org == org
        && tasks[id].status == (if hasAssignee then Assigned else Pending)
    {
      if id in tasks { return DuplicateKey; }
      var status := if hasAssignee then Assigned else Pending;
      var log := [CreatedEvent];
      if hasAssignee { log := log + [AssignedEvent]; }
      assert hasAssignee ==> log == [CreatedEvent, AssignedEvent];
      tasks := tasks[id := Task(org, status, log, 0, 3, 0, MAX_DELEGATION_DEPTH)];
      r := Ok;
    }

    method UpdateTaskStatus(org: OrgId, id: TaskId, to: Status) returns (r: Outcome)
      modifies this`tasks
      ensures (r, Tables()) == StatusUpdated(old(Tables()), org, id, to)
      ensures r == InvalidStatus <==> to.Unrecognised?
      ensures r == NotFound <==> r != InvalidStatus && (id !in old(tasks) || old(tasks)[id].org != org)
      ensures r == InvalidTransition <==>
        r !in {InvalidStatus, NotFound} && to != old(tasks)[id].status && old(tasks)[id].status !in EnteredFrom(to)
      ensures r == CheckViolation <==>
        r !in {InvalidStatus, NotFound, InvalidTransition} && to in {Todo, InProgress, InReview, Done}
      ensures r in {InvalidStatus, NotFound, InvalidTransition, CheckViolation} || r == Ok
      ensures tasks ==
        if r == Ok then old(tasks)[id := old(tasks)[id].(status := to, log := old(tasks)[id].log + [EventFor(to)])] else old(tasks)
      ensures r == Ok && to == Assigned ==> tasks[id].log == old(tasks)[id].log + [AssignedEvent]
    {
      if id in tasks { TransitionsFromBothSides(tasks[id].status, to); }
      if !ValidStatus(to) { return InvalidStatus; }
      if id !in tasks || tasks[id].org != org { return NotFound; }
      if !ValidTransition(tasks[id].status, to) { return InvalidTransition; }
      if Legacy(to) { return CheckViolation; }
      tasks := tasks[id := tasks[id].(status := to)];
      tasks := tasks[id := tasks[id].(log := tasks[id].log + [EventFor(to)])];
      assert tasks == StatusUpdated(old(Tables()), org, id, to).1.tasks;
      r := Ok;
    }

    method AssignTask(org: OrgId, id: TaskId) returns (r: Outcome)
      modifies this`tasks
      ensures (r, Tables()) == TaskAssigned(old(Tables()), org, id)
      ensures r == Ok <==> id in old(tasks) && old(tasks)[id].org == org
      ensures r == ForeignKeyViolation <==> id !in old(tasks)
      ensures tasks ==
        if id !in old(tasks) then old(tasks)
        else
          var logged := old(tasks)[id].(log := old(tasks)[id].log + [AssignedEvent]);
          old(tasks)[id := if old(tasks)[id].org == org then logged.(status := Assigned) else logged]
    {
      if id !in tasks { return ForeignKeyViolation; }
      var updated := tasks;
      if tasks[id].org == org { updated := tasks[id := tasks[id].(status := Assigned)]; }
      tasks := updated[id := updated[id].(log := updated[id].log + [AssignedEvent])];
      assert tasks == TaskAssigned(old(Tables()), org, id).1.tasks;
      r := if tasks[id].org == org then Ok else NotFound;
    }

    /** SELECT depends_on_task_id ... WHERE task_id = task, in whatever order the database likes. */
    method DependencyRows(task: TaskId) returns (rows: seq<TaskId>)
      ensures forall d :: d in rows <==> Edge(task, d) in dependencies
    {
      rows := [];
      var rest := set e | e in dependencies && e.task == task;
      while rest != {}
        invariant rest <= dependencies && forall e :: e in rest ==> e.task == task
        invariant forall d :: d in rows || Edge(task, d) in rest <==> Edge(task, d) in dependencies
        decreases |rest|
      {
        var e :| e in rest;
        rows, rest := rows + [e.dependsOn], rest - {e};
      }
    }

    /** Breadth-first search from `dependsOn`; the queue may hold a task several times. */
    method AddTaskDependency(task: TaskId, dependsOn: TaskId) returns (r: Outcome)
      modifies this`dependencies
      ensures (r, Tables()) == DependencyAdded(old(Tables()), task, dependsOn)
      ensures r == CycleDetected <==> Reaches(old(dependencies), dependsOn, task)
      ensures r == Ok <==> r != CycleDetected && task in tasks && dependsOn in tasks
      ensures dependencies == old(dependencies) + if r == Ok then {Edge(task, dependsOn)} else {}
    {
      var visited := {task};
      var queue := [dependsOn];
      ghost var known := {dependsOn} + set e | e in dependencies :: e.dependsOn;
      ReachesItself(dependencies, dependsOn);
      while |queue| > 0
        invariant unchanged(this)
        invariant task in visited && forall d :: d in queue ==> d in known
        invariant dependsOn in queue || dependsOn in visited - {task}
        invariant forall d :: d in queue || d in visited - {task} ==> Reaches(dependencies, dependsOn, d)
        invariant forall e :: e in dependencies && e.task in visited - {task}
                    ==> e.dependsOn in queue || e.dependsOn in visited - {task}
        decreases known - visited, |queue|
      {
        var cur := queue[0];
        ghost var before := queue;
        queue := queue[1..];
        assert forall d :: d in before <==> d == cur || d in queue;
        if cur == task { return CycleDetected; }
        if cur in visited { continue; }
        visited := visited + {cur};
        var rows := DependencyRows(cur);
        forall d | d in rows ensures Reaches(dependencies, dependsOn, d) && d in known {
          ReachesThenRow(dependencies, dependsOn, cur, d);
          assert Edge(cur, d) in dependencies;
        }
        queue := queue + rows;
      }
      if Reaches(dependencies, dependsOn, task) {
        var p :| WalkFromTo(dependencies, p, dependsOn, task);
        ClosedSetTraps(dependencies, visited - {task}, p, dependsOn, task);
        assert false;
      }
      if task !in tasks || dependsOn !in tasks { return ForeignKeyViolation; }
      dependencies := dependencies + {Edge(task, dependsOn)};
      r := Ok;
    }

    method IsTaskBlocked(task: TaskId) returns (blocked: bool)
      ensures blocked <==> IsBlocked(Tables(), task)
    {
      var rows := DependencyRows(task);
      for i := 0 to |rows|
        invariant forall j :: 0 <= j < i ==> IsCompleted(Tables(), rows[j])
      {
        if rows[i] !in tasks || tasks[rows[i]].status != Completed {
          assert Edge(task, rows[i]) in dependencies;
          return true;
        }
      }
      blocked := false;
    }

    method Delegate(org: OrgId, parent: TaskId, sub: TaskId, inTeam: bool) returns (r: Outcome)
      modifies this
      ensures (r, Tables()) == Delegated(old(Tables()), org, parent, sub, inTeam)
      ensures r == NotFound <==> parent !in old(tasks) || old(tasks)[parent].org != org
      ensures r == NotInTeam <==> r != NotFound && !inTeam
      ensures r == DuplicateKey <==> r != NotFound && inTeam && sub in old(tasks)
      ensures r !in {NotFound, NotInTeam, DuplicateKey} ==>
        && r == Ok && sub in tasks && tasks[sub].org == org && tasks[sub].status == Assigned
        && tasks == old(tasks)[sub := tasks[sub]][parent := old(tasks)[parent].(log := old(tasks)[parent].log + [DelegatedEvent])]
      ensures r != Ok ==> tasks == old(tasks) && dependencies == old(dependencies)
    {
      var found := GetTask(Db(tasks, dependencies), org, parent);
      if found.None? { return NotFound; }
      var v := found.value;
      if v.depth >= v.maxDepth && v.maxDepth > 0 { return DepthExceeded; }
      if v.depth >= MAX_DELEGATION_DEPTH { return DepthExceeded; }
      if v.retryCount >= v.maxRetries && v.maxRetries > 0 { return RetriesExceeded; }
      if !inTeam { return NotInTeam; }
      r := CreateTask(sub, org, true);
      if r != Ok { return; }
      tasks := tasks[sub := tasks[sub].(depth := v.depth + 1)];
      var _ := AddTaskDependency(parent, sub);
      tasks := tasks[parent := tasks[parent].(log := tasks[parent].log + [DelegatedEvent])];
    }

    method Evaluate(org: OrgId, id: TaskId) returns (r: Verdict)
      modifies this`tasks
      ensures (r, Tables()) == Evaluated(old(Tables()), org, id)
      ensures
        var own := id in old(tasks) && old(tasks)[id].org == org;
        && (r == VBlocked <==> IsBlocked(old(Tables()), id))
        && (r == VPanic <==> r != VBlocked && !own)
        && (r == VEscalated <==> r != VBlocked && own && old(tasks)[id].status == Failed)
        && (r == VReady <==> r != VBlocked && own && old(tasks)[id].status != Failed)
        && tasks == if r == VBlocked && own && old(tasks)[id].status in {Running, Blocked}
                    then old(tasks)[id := old(tasks)[id].(status := Blocked, log := old(tasks)[id].log + [StatusChangedEvent])]
                    else old(tasks)
    {
      var blocked := IsTaskBlocked(id);
      if blocked {
        var _ := UpdateTaskStatus(org, id, Blocked);
        return VBlocked;
      }
      var found := GetTask(Db(tasks, dependencies), org, id);
      if found.None? { return VPanic; }
      r := RetryOrEscalate(id, found.value);
    }

    method RetryOrEscalate(id: TaskId, v: View) returns (r: Verdict)
      modifies this`tasks
      ensures (r, Tables()) == RetriedOrEscalated(old(Tables()), id, v)
    {
      if v.status == Failed && v.retryCount < v.maxRetries {
        if id in tasks {
          tasks := tasks[id := tasks[id].(retryCount := tasks[id].retryCount + 1, status := Pending)];
        }
        return VRetry;
      }
      if v.status == Failed { return VEscalated; }
      r := VReady;
    }
  }
}
