/** `DAGTaskTable.topological_order`, `_reachable_from_roots` and the table validator, as the loops they are. */
module Kahn {
  import opened Wrappers
  import opened Strings
  import opened Dag

  // ---------- list.sort ----------

  ghost predicate Ordered(s: seq<string>) {
    forall i, j | 0 <= i < j < |s| :: Leq(s[i], s[j])
  }

  function Insert(x: string, s: seq<string>): (r: seq<string>)
    ensures multiset(r) == multiset(s) + multiset{x}
  {
    if s == [] || Less(x, s[0]) then [x] + s
    else
      assert s == [s[0]] + s[1..];
      [s[0]] + Insert(x, s[1..])
  }

  /** `sorted(s)`. */
  function Sort(s: seq<string>): (r: seq<string>)
    ensures multiset(r) == multiset(s)
  {
    if s == [] then []
    else
      assert s == s[..|s| - 1] + [s[|s| - 1]];
      Insert(s[|s| - 1], Sort(s[..|s| - 1]))
  }

  lemma {:induction false} InsertOrdered(x: string, s: seq<string>)
    requires Ordered(s)
    ensures Ordered(Insert(x, s))
    decreases |s|
  {
    var r := Insert(x, s);
    if s == [] {
    } else if Less(x, s[0]) {
      forall i, j | 0 <= i < j < |r| ensures Leq(r[i], r[j]) {
        if i == 0 && j > 1 {
          assert Leq(s[0], s[j - 1]);
          if s[0] != s[j - 1] { LessTransitive(x, s[0], s[j - 1]); }
        }
      }
    } else {
      var rest := Insert(x, s[1..]);
      InsertOrdered(x, s[1..]);
      LessTotal(x, s[0]);
      forall y | y in rest ensures Leq(s[0], y) {
        assert y in multiset(rest);
        assert y in s[1..] || y == x;
        if y in s[1..] {
          var k :| 0 <= k < |s[1..]| && s[1..][k] == y;
          assert Leq(s[0], s[k + 1]);
        }
      }
    }
  }

  lemma {:induction false} SortOrdered(s: seq<string>)
    ensures Ordered(Sort(s))
    decreases |s|
  {
    if s != [] {
      SortOrdered(s[..|s| - 1]);
      InsertOrdered(s[|s| - 1], Sort(s[..|s| - 1]));
    }
  }

  lemma SortMembers(s: seq<string>)
    ensures forall x :: x in Sort(s) <==> x in s
  {
    forall x ensures x in Sort(s) <==> x in s {
      assert x in multiset(Sort(s)) <==> x in multiset(s);
    }
  }

  // ---------- counting unmet dependencies ----------

  /** How many entries of the dependency list are not in `done`, repetitions counted. */
  function Unmet(deps: seq<string>, done: set<string>): nat
    decreases |deps|
  {
    if deps == [] then 0
    else Unmet(deps[..|deps| - 1], done) + (if deps[|deps| - 1] in done then 0 else 1)
  }

  lemma {:induction false} UnmetZero(deps: seq<string>, done: set<string>)
    ensures Unmet(deps, done) == 0 <==> forall d | d in deps :: d in done
    decreases |deps|
  {
    if deps != [] {
      UnmetZero(deps[..|deps| - 1], done);
      assert deps == deps[..|deps| - 1] + [deps[|deps| - 1]];
    }
  }

  lemma {:induction false} UnmetNothing(deps: seq<string>)
    ensures Unmet(deps, {}) == |deps|
    decreases |deps|
  {
    if deps != [] {
      UnmetNothing(deps[..|deps| - 1]);
    }
  }

  lemma {:induction false} UnmetStep(deps: seq<string>, done: set<string>, d: string)
    requires d !in done
    ensures Unmet(deps, done) == Unmet(deps, done + {d}) + multiset(deps)[d]
    decreases |deps|
  {
    if deps != [] {
      UnmetStep(deps[..|deps| - 1], done, d);
      assert deps == deps[..|deps| - 1] + [deps[|deps| - 1]];
    }
  }

  // ---------- the children table ----------

  /** One entry of `id` for each occurrence of `d` among its dependencies. */
  function Copies(deps: seq<string>, d: string, id: string): seq<string>
    decreases |deps|
  {
    if deps == [] then []
    else Copies(deps[..|deps| - 1], d, id) + (if deps[|deps| - 1] == d then [id] else [])
  }

  /** The dependents of `d` in table order, each as often as it names `d`. */
  function Dependents(tasks: seq<Node>, d: string): seq<string>
    decreases |tasks|
  {
    if tasks == [] then []
    else
      var last := tasks[|tasks| - 1];
      Dependents(tasks[..|tasks| - 1], d) + Copies(last.dependsOn, d, last.id)
  }

  lemma {:induction false} CopiesCount(deps: seq<string>, d: string, id: string, x: string)
    ensures multiset(Copies(deps, d, id))[x] == if x == id then multiset(deps)[d] else 0
    decreases |deps|
  {
    if deps != [] {
      CopiesCount(deps[..|deps| - 1], d, id, x);
      assert deps == deps[..|deps| - 1] + [deps[|deps| - 1]];
    }
  }

  lemma {:induction false} DependentsCount(tasks: seq<Node>, d: string, x: string)
    requires UniqueIds(tasks)
    ensures multiset(Dependents(tasks, d))[x] ==
      if x in GraphOf(tasks) then multiset(GraphOf(tasks)[x])[d] else 0
    decreases |tasks|
  {
    if tasks != [] {
      var before, last := tasks[..|tasks| - 1], tasks[|tasks| - 1];
      DependentsCount(before, d, x);
      CopiesCount(last.dependsOn, d, last.id, x);
      GraphKeys(before, last.id);
    }
  }

  /** `children[d]` lists x once for each time x depends on d. */
  ghost predicate IsChildren(g: Graph, children: map<string, seq<string>>) {
    && children.Keys == g.Keys
    && forall d, x | d in g :: multiset(children[d])[x] == if x in g then multiset(g[x])[d] else 0
  }

  /** The `children` table built by the two nested loops. */
  method BuildChildren(tasks: seq<Node>) returns (children: map<string, seq<string>>)
    requires UniqueIds(tasks) && Closed(GraphOf(tasks))
    ensures IsChildren(GraphOf(tasks), children)
  {
    var nodes := GraphOf(tasks);
    children := map id | id in nodes :: [];
    var i := 0;
    while i < |tasks|
      invariant 0 <= i <= |tasks|
      invariant children.Keys == nodes.Keys
      invariant forall d | d in children :: children[d] == Dependents(tasks[..i], d)
    {
      GraphAt(tasks, i);
      children := AddDependent(tasks[i], children);
      assert tasks[..i + 1][..i] == tasks[..i];
      i := i + 1;
    }
    assert tasks[..i] == tasks;
    forall d, x | d in nodes ensures multiset(children[d])[x] == if x in nodes then multiset(nodes[x])[d] else 0 {
      DependentsCount(tasks, d, x);
    }
  }

  lemma CopiesStep(deps: seq<string>, j: nat, id: string)
    requires j < |deps|
    ensures forall d :: Copies(deps[..j + 1], d, id) == Copies(deps[..j], d, id) + (if deps[j] == d then [id] else [])
  {
    assert deps[..j + 1][..j] == deps[..j];
  }

  /** The inner loop: one task is appended to the children of each of its dependencies. */
  method AddDependent(task: Node, table: map<string, seq<string>>) returns (children: map<string, seq<string>>)
    requires forall d | d in task.dependsOn :: d in table
    ensures children.Keys == table.Keys
    ensures forall d | d in table :: children[d] == table[d] + Copies(task.dependsOn, d, task.id)
  {
    children := table;
    var j := 0;
    while j < |task.dependsOn|
      invariant 0 <= j <= |task.dependsOn|
      invariant children.Keys == table.Keys
      invariant forall d | d in table :: children[d] == table[d] + Copies(task.dependsOn[..j], d, task.id)
    {
      var dependency := task.dependsOn[j];
      CopiesStep(task.dependsOn, j, task.id);
      children := children[dependency := children[dependency] + [task.id]];
      j := j + 1;
    }
    assert task.dependsOn[..j] == task.dependsOn;
  }

  // ---------- topological_order ----------

  /** The degree table while the dependents of the task placed last are visited: `kids` are still to come. */
  ghost predicate Degrees(g: Graph, done: set<string>, indegree: map<string, int>, kids: seq<string>) {
    && indegree.Keys == g.Keys && done <= g.Keys
    && (forall x | x in g :: indegree[x] == Unmet(g[x], done) + multiset(kids)[x])
    && (forall x | x in done :: indegree[x] == 0)
    && (forall x | x in kids :: x in g)
  }

  /** `ready` is sorted and holds exactly the unplaced tasks of degree 0. */
  ghost predicate ReadySet(done: set<string>, indegree: map<string, int>, ready: seq<string>) {
    && Ordered(ready) && Distinct(ready)
    && forall x :: x in ready <==> x in indegree && x !in done && indegree[x] == 0
  }

  lemma TakeReady(g: Graph, done: set<string>, indegree: map<string, int>, ready: seq<string>)
    requires Degrees(g, done, indegree, []) && ReadySet(done, indegree, ready) && ready != []
    ensures IsLeast(ready[0], Available(g, done))
    ensures ready[0] in g && ready[0] !in done && indegree[ready[0]] == 0
    ensures ReadySet(done + {ready[0]}, indegree, ready[1..])
  {
    forall x | x in g ensures x in Available(g, done) <==> x in ready {
      UnmetZero(g[x], done);
      assert indegree[x] == Unmet(g[x], done) + multiset([])[x];
    }
    assert ready == [ready[0]] + ready[1..];
  }

  /** `kids` lists every task once for each time it depends on `current`. */
  ghost predicate Lists(g: Graph, current: string, kids: seq<string>) {
    && (forall x | x in g :: multiset(kids)[x] == multiset(g[x])[current])
    && (forall x | x in kids :: x in g)
  }

  lemma SortedChildren(g: Graph, children: map<string, seq<string>>, current: string)
    requires IsChildren(g, children) && current in g
    ensures Lists(g, current, Sort(children[current]))
  {
    var dependents := children[current];
    SortMembers(dependents);
    forall x | x in dependents ensures x in g {
      assert x in multiset(dependents);
    }
  }

  lemma PlaceOne(g: Graph, done: set<string>, degree: int, current: string, kids: seq<string>, x: string)
    requires x in g && current !in done && multiset(kids)[x] == multiset(g[x])[current]
    requires degree == Unmet(g[x], done)
    ensures degree == Unmet(g[x], done + {current}) + multiset(kids)[x]
  {
    UnmetStep(g[x], done, current);
  }

  lemma PlaceCurrent(g: Graph, done: set<string>, indegree: map<string, int>, current: string, kids: seq<string>)
    requires Lists(g, current, kids)
    requires Degrees(g, done, indegree, []) && current in g && current !in done && indegree[current] == 0
    ensures Degrees(g, done + {current}, indegree, kids)
  {
    forall x | x in g ensures indegree[x] == Unmet(g[x], done + {current}) + multiset(kids)[x] {
      assert indegree[x] == Unmet(g[x], done) + multiset([])[x];
      PlaceOne(g, done, indegree[x], current, kids, x);
    }
  }

  /** Lowering the degree of the next dependent. */
  lemma LowerDegree(g: Graph, done: set<string>, indegree: map<string, int>, kids: seq<string>)
    requires Degrees(g, done, indegree, kids) && kids != []
    ensures kids[0] in g && kids[0] !in done && indegree[kids[0]] > 0
    ensures Degrees(g, done, indegree[kids[0] := indegree[kids[0]] - 1], kids[1..])
  {
    var child := kids[0];
    assert kids == [child] + kids[1..];
    assert child in kids && indegree[child] == Unmet(g[child], done) + multiset(kids)[child];
    forall x | x in g ensures multiset(kids)[x] == multiset(kids[1..])[x] + (if x == child then 1 else 0) {
    }
  }

  lemma AddReady(done: set<string>, indegree: map<string, int>, ready: seq<string>, child: string)
    requires ReadySet(done, indegree, ready) && child in indegree && child !in done && indegree[child] > 0
    ensures var lower := indegree[child := indegree[child] - 1];
      ReadySet(done, lower, if lower[child] == 0 then Sort(ready + [child]) else ready)
  {
    if indegree[child] == 1 {
      var longer := ready + [child];
      SortOrdered(longer);
      SortMembers(longer);
      DistinctBySize(Sort(longer), longer);
    }
  }

  lemma DistinctBySize(a: seq<string>, b: seq<string>)
    requires multiset(a) == multiset(b) && Distinct(b)
    ensures Distinct(a)
  {
    forall i, j | 0 <= i < j < |a| ensures a[i] != a[j] {
      if a[i] == a[j] {
        assert a == a[..i] + [a[i]] + a[i + 1..j] + [a[j]] + a[j + 1..];
        assert multiset(a)[a[i]] >= 2;
        DistinctCountsOnce(b, a[i]);
      }
    }
  }

  lemma {:induction false} DistinctCountsOnce(s: seq<string>, x: string)
    requires Distinct(s)
    ensures multiset(s)[x] <= 1
    decreases |s|
  {
    if s != [] {
      DistinctCountsOnce(s[..|s| - 1], x);
      assert s == s[..|s| - 1] + [s[|s| - 1]];
    }
  }

  /** One dependent visited: its degree drops, and at 0 it is inserted into `ready`. */
  lemma VisitStep(g: Graph, done: set<string>, indegree: map<string, int>, ready: seq<string>, kids: seq<string>)
    requires kids != [] && Degrees(g, done, indegree, kids) && ReadySet(done, indegree, ready)
    ensures kids[0] in indegree
    ensures var next := indegree[kids[0] := indegree[kids[0]] - 1];
      Degrees(g, done, next, kids[1..]) && ReadySet(done, next, if next[kids[0]] == 0 then Sort(ready + [kids[0]]) else ready)
  {
    LowerDegree(g, done, indegree, kids);
    AddReady(done, indegree, ready, kids[0]);
  }

  /** What holds of degrees, ready list and the dependents still to come while `done` is placed. */
  type Phase = (map<string, int>, seq<string>, seq<string>) -> bool

  ghost function PhaseOf(g: Graph, done: set<string>): Phase {
    (indegree, ready, kids) => Degrees(g, done, indegree, kids) && ReadySet(done, indegree, ready)
  }

  ghost predicate VisitKeeps(ok: Phase, indegree: map<string, int>, ready: seq<string>, kids: seq<string>) {
    kids != [] && ok(indegree, ready, kids) ==>
      (&& kids[0] in indegree
       && (var next := indegree[kids[0] := indegree[kids[0]] - 1];
           ok(next, if next[kids[0]] == 0 then Sort(ready + [kids[0]]) else ready, kids[1..])))
  }

  ghost predicate KeptByVisits(ok: Phase) {
    forall indegree, ready, kids :: VisitKeeps(ok, indegree, ready, kids)
  }

  lemma PhaseIsKept(g: Graph, done: set<string>)
    ensures KeptByVisits(PhaseOf(g, done))
  {
    var ok := PhaseOf(g, done);
    forall indegree, ready, kids ensures VisitKeeps(ok, indegree, ready, kids) {
      if kids != [] && ok(indegree, ready, kids) {
        VisitStep(g, done, indegree, ready, kids);
      }
    }
  }

  /** The inner loop over the sorted dependents of the task just placed. */
  method VisitDependents(kids: seq<string>, indegree0: map<string, int>, ready0: seq<string>, ghost ok: Phase)
    returns (indegree: map<string, int>, ready: seq<string>)
    requires KeptByVisits(ok) && ok(indegree0, ready0, kids)
    ensures ok(indegree, ready, [])
  {
    indegree, ready := indegree0, ready0;
    var j := 0;
    while j < |kids|
      invariant 0 <= j <= |kids|
      invariant ok(indegree, ready, kids[j..])
    {
      var child := kids[j];
      assert kids[j..][0] == child && kids[j..][1..] == kids[j + 1..];
      assert VisitKeeps(ok, indegree, ready, kids[j..]);
      indegree := indegree[child := indegree[child] - 1];
      if indegree[child] == 0 {
        ready := Sort(ready + [child]);
      }
      j := j + 1;
    }
    assert kids[j..] == [];
  }

  /** What the main loop keeps about the tasks placed so far. */
  ghost predicate LoopInv(g: Graph, order: seq<string>, indegree: map<string, int>, ready: seq<string>) {
    && IsGreedy(g, order)
    && Degrees(g, Elements(order), indegree, [])
    && ReadySet(Elements(order), indegree, ready)
  }

  /** One round of the main loop: the smallest ready task is placed, then its dependents are visited. */
  method PlaceNext(g: Graph, children: map<string, seq<string>>, order0: seq<string>, indegree0: map<string, int>,
                   ready0: seq<string>)
    returns (order: seq<string>, indegree: map<string, int>, ready: seq<string>)
    requires IsChildren(g, children) && LoopInv(g, order0, indegree0, ready0) && ready0 != []
    ensures LoopInv(g, order, indegree, ready)
    ensures order == order0 + [ready0[0]] && |order| <= |g.Keys|
  {
    var current := ready0[0];
    ghost var done := Elements(order0);
    TakeReady(g, done, indegree0, ready0);
    var kids := Sort(children[current]);
    SortedChildren(g, children, current);
    PlaceCurrent(g, done, indegree0, current, kids);
    order := order0 + [current];
    GreedyAppend(g, order0, current);
    assert Elements(order) == done + {current};
    PhaseIsKept(g, done + {current});
    indegree, ready := VisitDependents(kids, indegree0, ready0[1..], PhaseOf(g, done + {current}));
    GreedySize(g, order);
  }

  method PlaceAll(g: Graph, children: map<string, seq<string>>, indegree0: map<string, int>, ready0: seq<string>)
    returns (order: seq<string>)
    requires Closed(g) && IsChildren(g, children) && LoopInv(g, [], indegree0, ready0)
    ensures |order| == |g.Keys| ==> IsLeastTopological(g, order) && !HasCycle(g)
    ensures |order| != |g.Keys| ==> HasCycle(g)
  {
    var indegree, ready := indegree0, ready0;
    order := [];
    while ready != []
      invariant LoopInv(g, order, indegree, ready) && |order| <= |g.Keys|
      decreases |g.Keys| - |order|
    {
      order, indegree, ready := PlaceNext(g, children, order, indegree, ready);
    }
    Finished(g, order, indegree);
  }

  /** `topological_order`: the smallest topological order, or an error exactly when there is a cycle. The
      validator has checked unique ids and known dependencies before it calls. */
  method TopologicalOrder(tasks: seq<Node>) returns (r: Result<seq<string>>)
    requires UniqueIds(tasks) && Closed(GraphOf(tasks))
    ensures r.Ok? ==> IsLeastTopological(GraphOf(tasks), r.value)
    ensures r.Err? <==> HasCycle(GraphOf(tasks))
    ensures r.Err? ==> r.error == ValueError
  {
    var nodes := GraphOf(tasks);
    var indegree: map<string, int> := map id | id in nodes :: |nodes[id]|;
    var children := BuildChildren(tasks);
    var ready := Sort(Roots(tasks));
    InitialState(tasks, indegree);
    var order := PlaceAll(nodes, children, indegree, ready);
    GraphSize(tasks);
    if |order| != |tasks| {
      return Err(ValueError);
    }
    return Ok(order);
  }

  /** The ids without dependencies. */
  function Roots(tasks: seq<Node>): seq<string>
    decreases |tasks|
  {
    if tasks == [] then []
    else Roots(tasks[..|tasks| - 1]) + (if tasks[|tasks| - 1].dependsOn == [] then [tasks[|tasks| - 1].id] else [])
  }

  lemma {:induction false} RootsMembers(tasks: seq<Node>, x: string)
    requires UniqueIds(tasks)
    ensures x in Roots(tasks) <==> x in GraphOf(tasks) && GraphOf(tasks)[x] == []
    ensures Distinct(Roots(tasks))
    decreases |tasks|
  {
    if tasks != [] {
      var before, last := tasks[..|tasks| - 1], tasks[|tasks| - 1];
      RootsMembers(before, x);
      RootsMembers(before, last.id);
      GraphKeys(before, last.id);
    }
  }

  lemma InitialState(tasks: seq<Node>, indegree: map<string, int>)
    requires UniqueIds(tasks)
    requires indegree == map id | id in GraphOf(tasks) :: |GraphOf(tasks)[id]|
    ensures Elements<string>([]) == {}
    ensures Degrees(GraphOf(tasks), {}, indegree, [])
    ensures ReadySet({}, indegree, Sort(Roots(tasks)))
  {
    var g, roots := GraphOf(tasks), Roots(tasks);
    forall x | x in g ensures indegree[x] == Unmet(g[x], {}) + multiset([])[x] {
      UnmetNothing(g[x]);
    }
    RootsMembers(tasks, "");
    SortOrdered(roots);
    SortMembers(roots);
    DistinctBySize(Sort(roots), roots);
    forall x ensures x in Sort(roots) <==> x in indegree && x !in {} && indegree[x] == 0 {
      RootsMembers(tasks, x);
    }
  }

  lemma GreedyAppend(g: Graph, order: seq<string>, x: string)
    requires IsGreedy(g, order) && IsLeast(x, Available(g, Elements(order)))
    ensures IsGreedy(g, order + [x])
  {
    var longer := order + [x];
    forall k | 0 <= k < |longer| ensures IsLeast(longer[k], Available(g, Elements(longer[..k]))) {
      assert longer[..k] == order[..k];
      assert order[..|order|] == order;
    }
  }

  lemma GreedySize(g: Graph, order: seq<string>)
    requires IsGreedy(g, order)
    ensures |order| <= |g.Keys|
  {
    GreedyIsDistinct(g, order);
    DistinctCardinality(order);
    SubsetSize(Elements(order), g.Keys);
  }

  lemma Finished(g: Graph, order: seq<string>, indegree: map<string, int>)
    requires Closed(g) && IsGreedy(g, order)
    requires Degrees(g, Elements(order), indegree, []) && ReadySet(Elements(order), indegree, [])
    ensures |order| == |g.Keys| ==> IsLeastTopological(g, order) && !HasCycle(g)
    ensures |order| != |g.Keys| ==> HasCycle(g)
  {
    GreedyIsDistinct(g, order);
    DistinctCardinality(order);
    if |order| == |g.Keys| {
      GreedyIsLeastTopological(g, order);
      forall c ensures !IsCycle(g, c) {
        if IsCycle(g, c) { CycleHasNoOrder(g, order, c); }
      }
    } else {
      forall x | x in g && x !in Elements(order) ensures x !in Available(g, Elements(order)) {
        UnmetZero(g[x], Elements(order));
        assert indegree[x] == Unmet(g[x], Elements(order)) + multiset([])[x];
        assert x !in [];
      }
      StuckMeansCycle(g, Elements(order));
    }
  }
}
