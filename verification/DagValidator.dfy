/** `validate_graph_and_publication_terminal`: what a validated table guarantees, and why its last check,
    reachability from the roots, can never fail. */
module DagValidator {
  import opened Wrappers
  import opened Strings
  import opened Dag
  import opened Kahn

  // ---------- _reachable_from_roots ----------

  /** Contains every root, and with a task everything that depends on it. */
  ghost predicate DownwardClosed(g: Graph, s: set<string>) {
    && (forall x | x in g && g[x] == [] :: x in s)
    && (forall x, d | x in g && d in g[x] && d in s :: x in s)
  }

  /** The visited tasks are closed up to the stack, and everything found so far is forced. */
  ghost predicate WalkInv(g: Graph, children: map<string, seq<string>>, seen: set<string>, stack: seq<string>) {
    && seen <= g.Keys && children.Keys == g.Keys
    && (forall x | x in stack :: x in g)
    && (forall x | x in g && g[x] == [] :: x in seen || x in stack)
    && (forall x, y | x in seen && y in children[x] :: y in seen || y in stack)
    && (forall s | DownwardClosed(g, s) :: seen <= s && forall x | x in stack :: x in s)
  }

  lemma ChildIffDependent(g: Graph, children: map<string, seq<string>>, d: string, x: string)
    requires IsChildren(g, children) && d in g
    ensures x in children[d] <==> x in g && d in g[x]
  {
    assert x in children[d] <==> x in multiset(children[d]);
    if x in g {
      assert d in g[x] <==> d in multiset(g[x]);
    }
  }

  lemma VisitTop(g: Graph, children: map<string, seq<string>>, seen: set<string>, stack: seq<string>)
    requires IsChildren(g, children) && WalkInv(g, children, seen, stack) && stack != []
    ensures var current, rest := stack[|stack| - 1], stack[..|stack| - 1];
      && current in g
      && (current in seen ==> WalkInv(g, children, seen, rest))
      && (current !in seen ==> WalkInv(g, children, seen + {current}, rest + children[current]))
  {
    var current, rest := stack[|stack| - 1], stack[..|stack| - 1];
    assert stack == rest + [current];
    assert current in stack;
    if current !in seen {
      var longer := rest + children[current];
      forall x | x in longer ensures x in g {
        ChildIffDependent(g, children, current, x);
      }
      forall s | DownwardClosed(g, s) ensures seen + {current} <= s && forall x | x in longer :: x in s {
        assert current in s;
        forall x | x in longer ensures x in s {
          ChildIffDependent(g, children, current, x);
        }
      }
    }
  }

  lemma WalkDone(g: Graph, children: map<string, seq<string>>, seen: set<string>)
    requires IsChildren(g, children) && WalkInv(g, children, seen, [])
    ensures DownwardClosed(g, seen)
  {
    forall x, d | x in g && d in g[x] && d in seen ensures x in seen {
      ChildIffDependent(g, children, d, x);
      assert x !in [];
    }
  }

  /** `_reachable_from_roots`: the least set that holds the roots and is closed under dependents. */
  method ReachableFromRoots(tasks: seq<Node>) returns (seen: set<string>)
    requires UniqueIds(tasks) && Closed(GraphOf(tasks))
    ensures DownwardClosed(GraphOf(tasks), seen) && seen <= GraphOf(tasks).Keys
    ensures forall s | DownwardClosed(GraphOf(tasks), s) :: seen <= s
  {
    var g := GraphOf(tasks);
    var children := BuildChildren(tasks);
    var stack := Roots(tasks);
    RootsStart(tasks, children);
    seen := Walk(g, children, stack);
  }

  lemma RootsStart(tasks: seq<Node>, children: map<string, seq<string>>)
    requires UniqueIds(tasks) && IsChildren(GraphOf(tasks), children)
    ensures WalkInv(GraphOf(tasks), children, {}, Roots(tasks))
  {
    forall x ensures x in Roots(tasks) <==> x in GraphOf(tasks) && GraphOf(tasks)[x] == [] {
      RootsMembers(tasks, x);
    }
  }

  method Walk(g: Graph, children: map<string, seq<string>>, stack0: seq<string>) returns (seen: set<string>)
    requires IsChildren(g, children) && WalkInv(g, children, {}, stack0)
    ensures DownwardClosed(g, seen) && seen <= g.Keys
    ensures forall s | DownwardClosed(g, s) :: seen <= s
  {
    seen := {};
    var stack := stack0;
    while stack != []
      invariant WalkInv(g, children, seen, stack)
      decreases g.Keys - seen, |stack|
    {
      var current := stack[|stack| - 1];
      VisitTop(g, children, seen, stack);
      stack := stack[..|stack| - 1];
      if current in seen {
        continue;
      }
      seen := seen + {current};
      stack := stack + children[current];
    }
    WalkDone(g, children, seen);
  }

  /** Along a topological order everything is reached, so after Kahn's loop succeeded the check cannot fail. */
  lemma {:induction false} OrderedTasksAreReached(g: Graph, order: seq<string>, s: set<string>, k: nat)
    requires IsTopological(g, order) && DownwardClosed(g, s) && k <= |order|
    ensures Elements(order[..k]) <= s
    decreases k
  {
    if k > 0 {
      OrderedTasksAreReached(g, order, s, k - 1);
      var x := order[k - 1];
      assert Before(g, order, k - 1);
      if g[x] != [] {
        var d := g[x][0];
        assert d in g[x] && d in Elements(order[..k - 1]);
      }
      assert order[..k] == order[..k - 1] + [x];
    }
  }

  lemma EverythingIsReached(g: Graph, order: seq<string>, s: set<string>)
    requires IsTopological(g, order) && DownwardClosed(g, s) && s <= g.Keys
    ensures s == g.Keys
  {
    OrderedTasksAreReached(g, order, s, |order|);
    assert order[..|order|] == order;
  }

  // ---------- the validator ----------

  predicate NodeIsLocal(ids: set<string>, t: Node) {
    && Elements(t.dependsOn) <= ids
    && t.id !in t.dependsOn
    && t.dependencyOutputs <= Elements(t.dependsOn)
  }

  /** The terminal exists, publishes, is the only task marked terminal, and nothing depends on it. */
  ghost predicate TerminalIsSink(table: Table) {
    && (exists t | t in table.tasks :: t.id == table.terminalTaskId && t.kind == PublishLatex && t.terminal)
    && (forall t | t in table.tasks :: table.terminalTaskId !in t.dependsOn)
    && (forall t | t in table.tasks :: t.terminal ==> t.id == table.terminalTaskId)
  }

  ghost function Ids(tasks: seq<Node>): set<string> {
    set t | t in tasks :: t.id
  }

  ghost predicate ValidTable(table: Table) {
    && 1 <= |table.tasks| <= 100
    && UniqueIds(table.tasks)
    && (forall t | t in table.tasks :: NodeIsLocal(Ids(table.tasks), t))
    && TerminalIsSink(table)
    && !HasCycle(GraphOf(table.tasks))
    && exists order :: IsLeastTopological(GraphOf(table.tasks), order) && order != []
         && order[|order| - 1] == table.terminalTaskId
  }

  lemma KeysAreIds(tasks: seq<Node>)
    ensures GraphOf(tasks).Keys == Ids(tasks)
  {
    forall x ensures x in GraphOf(tasks) <==> x in Ids(tasks) {
      GraphKeys(tasks, x);
      if x in Ids(tasks) {
        var t :| t in tasks && t.id == x;
        var k :| 0 <= k < |tasks| && tasks[k] == t;
        assert tasks[k].id == x;
      }
    }
  }

  lemma LocalNodesAreClosed(tasks: seq<Node>)
    requires UniqueIds(tasks) && forall t | t in tasks :: NodeIsLocal(Ids(tasks), t)
    ensures Closed(GraphOf(tasks))
  {
    KeysAreIds(tasks);
    forall x, d | x in GraphOf(tasks) && d in GraphOf(tasks)[x] ensures d in GraphOf(tasks) {
      GraphKeys(tasks, x);
      var k :| 0 <= k < |tasks| && tasks[k].id == x;
      GraphAt(tasks, k);
      assert NodeIsLocal(Ids(tasks), tasks[k]);
      assert d in Elements(tasks[k].dependsOn);
    }
  }

  method HasUniqueIds(tasks: seq<Node>) returns (r: bool)
    ensures r <==> UniqueIds(tasks)
  {
    var seen: set<string> := {};
    var i := 0;
    while i < |tasks|
      invariant 0 <= i <= |tasks|
      invariant seen == set k | 0 <= k < i :: tasks[k].id
      invariant UniqueIds(tasks[..i])
    {
      if tasks[i].id in seen {
        var k :| 0 <= k < i && tasks[k].id == tasks[i].id;
        return false;
      }
      seen := seen + {tasks[i].id};
      i := i + 1;
    }
    assert tasks[..i] == tasks;
    return true;
  }

  /** The model validator: it accepts exactly the valid tables. */
  method Validate(table: Table) returns (r: Result<()>)
    ensures r.Ok? <==> ValidTable(table)
    ensures r.Err? ==> r.error == ValueError
  {
    var tasks := table.tasks;
    if |tasks| < 1 || |tasks| > 100 {
      return Err(ValueError);
    }
    var unique := HasUniqueIds(tasks);
    if !unique {
      return Err(ValueError);
    }
    var ids := set t | t in tasks :: t.id;
    if exists t | t in tasks :: !NodeIsLocal(ids, t) {
      return Err(ValueError);
    }
    if !exists t | t in tasks :: t.id == table.terminalTaskId && t.kind == PublishLatex && t.terminal {
      return Err(ValueError);
    }
    if (exists t | t in tasks :: table.terminalTaskId in t.dependsOn)
      || (exists t | t in tasks :: t.terminal && t.id != table.terminalTaskId) {
      return Err(ValueError);
    }
    LocalNodesAreClosed(tasks);
    var order := TopologicalOrder(tasks);
    if order.Err? {
      return Err(ValueError);
    }
    NonEmptyOrder(table, order.value);
    if order.value[|order.value| - 1] != table.terminalTaskId {
      OtherLastTask(table, order.value);
      return Err(ValueError);
    }
    var reachable := ReachableFromRoots(tasks);
    EverythingIsReached(GraphOf(tasks), order.value, reachable);
    KeysAreIds(tasks);
    if reachable != ids {
      assert false;
    }
    return Ok(());
  }

  lemma NonEmptyOrder(table: Table, order: seq<string>)
    requires table.tasks != [] && IsTopological(GraphOf(table.tasks), order)
    ensures order != []
  {
    GraphKeys(table.tasks, table.tasks[0].id);
    assert table.tasks[0].id in Elements(order);
  }

  lemma OtherLastTask(table: Table, order: seq<string>)
    requires order != [] && order[|order| - 1] != table.terminalTaskId
    requires IsLeastTopological(GraphOf(table.tasks), order)
    ensures !ValidTable(table)
  {
    if ValidTable(table) {
      var other :| IsLeastTopological(GraphOf(table.tasks), other) && other != [] && other[|other| - 1] == table.terminalTaskId;
      LeastTopologicalIsUnique(GraphOf(table.tasks), order, other);
    }
  }
}
