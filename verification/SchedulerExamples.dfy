/** Two promises the scheduler does not keep, each with an input that breaks it and the exact condition under
    which it holds: READY implies that the dependencies are COMPLETED (rollback), and COMPLETED stays closed
    under dependencies (replan). */
module SchedulerExamples {
  import opened Wrappers
  import opened Strings
  import opened Dag
  import opened DagValidator
  import opened Scheduler
  import opened SchedulerInvariants

  ghost predicate ReadyMeansDone(s: State)
    requires Aligned(s)
  {
    forall i | 0 <= i < |s.tasks| :: s.tasks[i].status == Ready ==> DepsDone(s.dag.tasks[i], Done(s.tasks))
  }

  /** In an acyclic graph no dependency of a task is downstream of it. */
  lemma DependencyIsUpstream(nodes: seq<Node>, i: nat, d: string)
    requires UniqueIds(nodes) && i < |nodes| && d in nodes[i].dependsOn && !HasCycle(GraphOf(nodes))
    ensures d !in Downstream(nodes, nodes[i].id)
  {
    var g, root := GraphOf(nodes), nodes[i].id;
    GraphAt(nodes, i);
    if d in Downstream(nodes, root) {
      var path :| DependencyPath(g, path, d, root);
      assert path[|path| - 1] in g;
      assert IsCycle(g, path);
    }
  }

  lemma OwnDependencies(s: State, root: string, reason: string, i: nat)
    requires UniqueIds(s.dag.tasks) && !HasCycle(GraphOf(s.dag.tasks)) && i < |s.dag.tasks|
    requires s.dag.tasks[i].id == root && root in Downstream(s.dag.tasks, root)
    ensures DepsDone(s.dag.tasks[i], Done(RollbackTasks(s.tasks, root, Downstream(s.dag.tasks, root), reason)))
       <==> DepsDone(s.dag.tasks[i], Done(s.tasks))
  {
    RollbackDone(s.tasks, root, Downstream(s.dag.tasks, root), reason);
    forall d | d in s.dag.tasks[i].dependsOn ensures d !in Downstream(s.dag.tasks, root) {
      DependencyIsUpstream(s.dag.tasks, i, d);
    }
  }

  /** Rollback keeps "READY implies dependencies COMPLETED" if and only if the rolled-back task's own
      dependencies are COMPLETED before the call. */
  lemma RollbackReadiness(s: State, root: string, reason: string)
    requires Inv(s) && ReadyMeansDone(s) && Rollback(s, root, reason).Ok?
    ensures Aligned(Rollback(s, root, reason).value)
    ensures ReadyMeansDone(Rollback(s, root, reason).value)
       <==> DepsDone(s.dag.tasks[NodeIndex(s.dag.tasks, root).value], Done(s.tasks))
  {
    RootIsDownstream(s.dag.tasks, root);
    ReadinessAfter(s, root, reason, NodeIndex(s.dag.tasks, root).value, Rollback(s, root, reason).value);
  }

  lemma ReadinessAfter(s: State, root: string, reason: string, i: nat, t: State)
    requires Aligned(s) && UniqueIds(s.dag.tasks) && !HasCycle(GraphOf(s.dag.tasks)) && ReadyMeansDone(s)
    requires i < |s.tasks| && s.dag.tasks[i].id == root && root in Downstream(s.dag.tasks, root)
    requires t.dag == s.dag && t.tasks == RollbackTasks(s.tasks, root, Downstream(s.dag.tasks, root), reason)
    ensures Aligned(t) && (ReadyMeansDone(t) <==> DepsDone(s.dag.tasks[i], Done(s.tasks)))
  {
    OwnDependencies(s, root, reason, i);
    assert t.tasks[i].status == Ready;
    forall k | 0 <= k < |t.tasks| && t.tasks[k].status == Ready && k != i ensures DepsDone(t.dag.tasks[k], Done(t.tasks)) {
      OtherReadyTask(s, root, reason, k, i);
    }
  }

  lemma OtherReadyTask(s: State, root: string, reason: string, k: nat, i: nat)
    requires Aligned(s) && UniqueIds(s.dag.tasks) && ReadyMeansDone(s) && k < |s.tasks| && i < |s.tasks| && k != i
    requires s.dag.tasks[i].id == root && root in Downstream(s.dag.tasks, root)
    requires RollbackTasks(s.tasks, root, Downstream(s.dag.tasks, root), reason)[k].status == Ready
    ensures forall d | d in s.dag.tasks[k].dependsOn :: d in Done(s.tasks) - Downstream(s.dag.tasks, root)
    ensures DepsDone(s.dag.tasks[k], Done(RollbackTasks(s.tasks, root, Downstream(s.dag.tasks, root), reason)))
  {
    var affected := Downstream(s.dag.tasks, root);
    RollbackDone(s.tasks, root, affected, reason);
    assert s.tasks[k].taskId != root;
    forall d | d in s.dag.tasks[k].dependsOn ensures d in Done(s.tasks) && d !in affected {
      UnaffectedDependencies(s.dag.tasks, k, root, d);
    }
  }

  // ---------- one small table ----------

  /** Two solve tasks in a row, then publication; `spec` is the first task's contract. */
  function Example(spec: string): Table {
    Table([Node("a", SolveProblem, [], {}, false, spec),
           Node("b", SolveProblem, ["a"], {}, false, "b"),
           Node("p", PublishLatex, ["b"], {}, true, "p")], "p")
  }

  lemma ExampleGraph(spec: string)
    ensures UniqueIds(Example(spec).tasks)
    ensures GraphOf(Example(spec).tasks) == map["a" := [], "b" := ["a"], "p" := ["b"]]
  {
    var tasks := Example(spec).tasks;
    assert GraphOf(tasks[..0]) == map[];
    assert tasks[..1][..0] == tasks[..0] && tasks[..2][..1] == tasks[..1];
    assert GraphOf(tasks[..1]) == map["a" := []];
    assert GraphOf(tasks[..2]) == map["a" := [], "b" := ["a"]];
    assert tasks[..3] == tasks;
  }

  lemma ExampleAvailable(g: Graph)
    requires g == map["a" := [], "b" := ["a"], "p" := ["b"]]
    ensures Available(g, {}) == {"a"} && Available(g, {"a"}) == {"b"} && Available(g, {"a", "b"}) == {"p"}
    ensures |g.Keys| == 3
  {
    assert g.Keys == {"a", "b", "p"};
    assert "a" in g["b"] && "b" in g["p"] by {
      assert g["b"][0] == "a" && g["p"][0] == "b";
    }
    forall done: set<string>, x ensures x in Available(g, done) <==>
      (x == "a" && x !in done) || (x == "b" && x !in done && "a" in done) || (x == "p" && x !in done && "b" in done)
    {
    }
  }

  lemma ExampleOrder(spec: string)
    ensures IsLeastTopological(GraphOf(Example(spec).tasks), ["a", "b", "p"])
    ensures !HasCycle(GraphOf(Example(spec).tasks))
  {
    ExampleGraph(spec);
    var g := GraphOf(Example(spec).tasks);
    var order := ["a", "b", "p"];
    assert order[..0] == [] && order[..1] == ["a"] && order[..2] == ["a", "b"];
    assert Elements(order[..0]) == {} && Elements(order[..1]) == {"a"} && Elements(order[..2]) == {"a", "b"};
    ExampleAvailable(g);
    GreedyIsLeastTopological(g, order);
    forall c ensures !IsCycle(g, c) {
      if IsCycle(g, c) { CycleHasNoOrder(g, order, c); }
    }
  }

  lemma ExampleIsValid(spec: string)
    ensures ValidTable(Example(spec))
  {
    ExampleGraph(spec);
    ExampleOrder(spec);
    var table := Example(spec);
    assert Ids(table.tasks) == {"a", "b", "p"} by {
      assert table.tasks[0].id == "a" && table.tasks[1].id == "b" && table.tasks[2].id == "p";
    }
    assert table.tasks[2] in table.tasks;
    var order := ["a", "b", "p"];
    assert order[|order| - 1] == table.terminalTaskId;
  }

  /** Rolling back the blocked second task of a fresh run makes it READY although the first is not COMPLETED. */
  lemma RollbackBreaksReadiness()
    ensures var s := Start(Example("a"));
      && Inv(s) && ReadyMeansDone(s) && Rollback(s, "b", "retry").Ok?
      && Aligned(Rollback(s, "b", "retry").value) && !ReadyMeansDone(Rollback(s, "b", "retry").value)
  {
    ExampleIsValid("a");
    StartKeepsInv(Example("a"));
    var s := Start(Example("a"));
    assert s.dag.tasks[1].id == "b" && s.dag.tasks[1].dependsOn[0] == "a";
    assert NodeIndex(s.dag.tasks, "b") == Some(1) by {
      var i := NodeIndex(s.dag.tasks, "b");
      assert i.Some?;
    }
    assert "a" !in Done(s.tasks) by {
      forall r | r in s.tasks ensures r.status != Completed {
        var i :| 0 <= i < |s.tasks| && s.tasks[i] == r;
      }
    }
    RollbackReadiness(s, "b", "retry");
  }

  /** The run after both solve tasks completed. */
  function BothSolved(): State {
    var record := (id: string, status: TaskStatus) => Record(id, status, 1, Some("r"), None);
    State(Example("a"), [record("a", Completed), record("b", Completed), Record("p", Ready, 0, None, None)],
          ["r", "r"], [], None, None, false, 3)
  }

  lemma BothSolvedParts()
    ensures var s := BothSolved();
      Aligned(s) && Settled(s) && NoLostWakeUp(s) && TerminalExact(s) && CompletedClosed(s)
  {
    var s := BothSolved();
    assert Done(s.tasks) == {"a", "b"} by {
      assert s.tasks[0] in s.tasks && s.tasks[1] in s.tasks;
    }
  }

  lemma BothSolvedIsSound()
    ensures Inv(BothSolved()) && CompletedClosed(BothSolved())
  {
    BothSolvedParts();
    ExampleIsValid("a");
  }

  /** Changing the first task's contract keeps the second COMPLETED on top of a task that must run again. */
  lemma ReplanBreaksClosure()
    ensures var s := BothSolved();
      && Inv(s) && CompletedClosed(s) && ValidTable(Example("changed")) && Replan(s, Example("changed"), "new").Ok?
      && Aligned(Replan(s, Example("changed"), "new").value)
      && !CompletedClosed(Replan(s, Example("changed"), "new").value)
  {
    var s, dag := BothSolved(), Example("changed");
    BothSolvedIsSound();
    ExampleIsValid("changed");
    ReplanClosure(s, dag, "new");
    DependencyChanged();
  }

  lemma DependencyChanged()
    ensures !KeptTasksHaveUnchangedDependencies(BothSolved(), Example("changed"))
  {
    var s, dag := BothSolved(), Example("changed");
    var node := dag.tasks[1];
    assert node in dag.tasks && s.dag.tasks[1] == node && s.tasks[1].status == Completed && node.dependsOn[0] == "a";
    assert dag.tasks[0].spec != s.dag.tasks[0].spec;
    assert Kept(s, node) && "a" in node.dependsOn;
    assert !UnchangedId(s, dag, "a") by {
      forall n | n in s.dag.tasks && n.id == "a" ensures n !in dag.tasks {
        assert n == s.dag.tasks[0];
      }
    }
  }
}
