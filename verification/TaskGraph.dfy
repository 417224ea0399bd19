/** The task dependency table read as a directed graph: walks, reachability and acyclicity. */
module TaskGraph {

  type TaskId = nat

  /** One row of task_dependencies: `task` waits for `dependsOn`. */
  datatype Edge = Edge(task: TaskId, dependsOn: TaskId)

  type Graph = set<Edge>

  ghost predicate Walk(g: Graph, p: seq<TaskId>) {
    |p| > 0 && forall i, j :: 0 <= i && j == i + 1 && j < |p| ==> Edge(p[i], p[j]) in g
  }

  ghost predicate WalkFromTo(g: Graph, p: seq<TaskId>, a: TaskId, b: TaskId) {
    Walk(g, p) && p[0] == a && p[|p| - 1] == b
  }

  /** `b` can be reached from `a` along zero or more rows. */
  ghost predicate Reaches(g: Graph, a: TaskId, b: TaskId) {
    exists p :: WalkFromTo(g, p, a, b)
  }

  /** No row points from a task to one that leads back to it. */
  ghost predicate Acyclic(g: Graph) {
    forall e :: e in g ==> !Reaches(g, e.dependsOn, e.task)
  }

  /** A walk of at least one row that ends where it starts. */
  ghost predicate Cycle(g: Graph, p: seq<TaskId>) {
    Walk(g, p) && |p| > 1 && p[0] == p[|p| - 1]
  }

  lemma ReachesItself(g: Graph, a: TaskId)
    ensures Reaches(g, a, a)
  {
    assert WalkFromTo(g, [a], a, a);
  }

  lemma ReachesViaRow(g: Graph, a: TaskId, b: TaskId, c: TaskId)
    requires Edge(a, b) in g && Reaches(g, b, c)
    ensures Reaches(g, a, c)
  {
    var p :| WalkFromTo(g, p, b, c);
    assert WalkFromTo(g, [a] + p, a, c);
  }

  lemma ReachesThenRow(g: Graph, a: TaskId, b: TaskId, c: TaskId)
    requires Reaches(g, a, b) && Edge(b, c) in g
    ensures Reaches(g, a, c)
  {
    var p :| WalkFromTo(g, p, a, b);
    assert WalkFromTo(g, p + [c], a, c);
  }

  lemma ReachesTransitive(g: Graph, a: TaskId, b: TaskId, c: TaskId)
    requires Reaches(g, a, b) && Reaches(g, b, c)
    ensures Reaches(g, a, c)
  {
    var p :| WalkFromTo(g, p, a, b);
    var q :| WalkFromTo(g, q, b, c);
    assert WalkFromTo(g, p + q[1..], a, c);
  }

  lemma WalkTail(g: Graph, p: seq<TaskId>, a: TaskId, b: TaskId)
    requires WalkFromTo(g, p, a, b) && |p| > 1
    ensures Edge(a, p[1]) in g && WalkFromTo(g, p[1..], p[1], b)
  {
  }

  /** A set that is closed under the rows of `g` cannot be left by a walk. */
  lemma {:induction false} ClosedSetTraps(g: Graph, s: set<TaskId>, p: seq<TaskId>, a: TaskId, b: TaskId)
    requires forall e :: e in g && e.task in s ==> e.dependsOn in s
    requires a in s && WalkFromTo(g, p, a, b)
    ensures b in s
    decreases |p|
  {
    if |p| > 1 {
      WalkTail(g, p, a, b);
      ClosedSetTraps(g, s, p[1..], p[1], b);
    }
  }

  /** `Acyclic` is the same as having no cycle at all. */
  lemma AcyclicIffNoCycle(g: Graph)
    ensures Acyclic(g) <==> forall p :: !Cycle(g, p)
  {
    if Acyclic(g) {
      forall p ensures !Cycle(g, p) {
        if Cycle(g, p) {
          WalkTail(g, p, p[0], p[0]);
        }
      }
    }
    if forall p :: !Cycle(g, p) {
      forall e | e in g ensures !Reaches(g, e.dependsOn, e.task) {
        if Reaches(g, e.dependsOn, e.task) {
          var p :| WalkFromTo(g, p, e.dependsOn, e.task);
          assert Cycle(g, [e.task] + p);
        }
      }
    }
  }

  /** Every walk after adding the row `n` either avoided it or passed through it. */
  lemma {:induction false} WalkAfterInsert(g: Graph, n: Edge, p: seq<TaskId>, a: TaskId, b: TaskId)
    requires WalkFromTo(g + {n}, p, a, b)
    ensures Reaches(g, a, b) || (Reaches(g, a, n.task) && Reaches(g, n.dependsOn, b))
    decreases |p|
  {
    if |p| == 1 {
      ReachesItself(g, a);
    } else {
      WalkTail(g + {n}, p, a, b);
      var c := p[1];
      WalkAfterInsert(g, n, p[1..], c, b);
      if Edge(a, c) in g {
        if Reaches(g, c, b) { ReachesViaRow(g, a, c, b); } else { ReachesViaRow(g, a, c, n.task); }
      } else {
        ReachesItself(g, a);
      }
    }
  }

  /** The check made before an insert is exactly what keeps the table acyclic. */
  lemma InsertKeepsAcyclicIff(g: Graph, n: Edge)
    requires Acyclic(g)
    ensures Acyclic(g + {n}) <==> !Reaches(g, n.dependsOn, n.task)
  {
    var h := g + {n};
    if Reaches(g, n.dependsOn, n.task) {
      var p :| WalkFromTo(g, p, n.dependsOn, n.task);
      assert WalkFromTo(h, p, n.dependsOn, n.task);
      assert n in h;
    } else {
      forall e | e in h ensures !Reaches(h, e.dependsOn, e.task) {
        if Reaches(h, e.dependsOn, e.task) {
          var p :| WalkFromTo(h, p, e.dependsOn, e.task);
          WalkAfterInsert(g, n, p, e.dependsOn, e.task);
          if e in g {
            ReachesViaRow(g, e.task, e.dependsOn, n.task);
            ReachesTransitive(g, n.dependsOn, e.task, n.task);
          }
        }
      }
    }
  }

  /** In an acyclic graph every nonempty finite set of tasks has one with no row into the set. */
  lemma SinkExists(g: Graph, s: set<TaskId>) returns (x: TaskId)
    requires Acyclic(g) && s != {}
    ensures x in s && forall y :: y in s ==> Edge(x, y) !in g
  {
    x :| x in s;
    var trail := {x};
    ReachesItself(g, x);
    while exists y :: y in s && Edge(x, y) in g
      invariant trail <= s && x in trail
      invariant forall t :: t in trail ==> Reaches(g, t, x)
      decreases s - trail
    {
      var y :| y in s && Edge(x, y) in g;
      if y in trail {
        assert false;
      }
      forall t | t in trail + {y} ensures Reaches(g, t, y) {
        if t in trail { ReachesThenRow(g, t, x, y); } else { ReachesItself(g, y); }
      }
      x, trail := y, trail + {y};
    }
  }
}
