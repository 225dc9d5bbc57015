/** The task table of src/m2harness/domain/dag.py: Kahn's loop, the reachability walk and the validator. */
module Dag {
  import opened Strings

  datatype Kind = Ingest | SolveProblem | Model | Code | Review | PublishLatex

  /** A task node; `spec` stands for the columns no graph algorithm reads (title, contract, metadata, ...). */
  datatype Node = Node(id: string, kind: Kind, dependsOn: seq<string>, dependencyOutputs: set<string>,
                       terminal: bool, spec: string)

  datatype Table = Table(tasks: seq<Node>, terminalTaskId: string)

  /** A dependency graph: every node with its dependencies, repetitions included. */
  type Graph = map<string, seq<string>>

  ghost predicate Closed(g: Graph) {
    forall x, d | x in g && d in g[x] :: d in g
  }

  ghost predicate UniqueIds(tasks: seq<Node>) {
    forall i, j | 0 <= i < j < |tasks| :: tasks[i].id != tasks[j].id
  }

  /** `{task.id: task.depends_on for task in tasks}`. */
  function GraphOf(tasks: seq<Node>): Graph
    decreases |tasks|
  {
    if tasks == [] then map[]
    else
      var last := tasks[|tasks| - 1];
      GraphOf(tasks[..|tasks| - 1])[last.id := last.dependsOn]
  }

  lemma {:induction false} GraphKeys(tasks: seq<Node>, x: string)
    ensures x in GraphOf(tasks) <==> exists k :: 0 <= k < |tasks| && tasks[k].id == x
    decreases |tasks|
  {
    if tasks != [] {
      var before := tasks[..|tasks| - 1];
      GraphKeys(before, x);
      if exists k :: 0 <= k < |tasks| && tasks[k].id == x {
        var k :| 0 <= k < |tasks| && tasks[k].id == x;
        if k < |tasks| - 1 { assert before[k].id == x; }
      }
      if exists k :: 0 <= k < |before| && before[k].id == x {
        var k :| 0 <= k < |before| && before[k].id == x;
        assert tasks[k].id == x;
      }
    }
  }

  lemma {:induction false} GraphAt(tasks: seq<Node>, k: nat)
    requires UniqueIds(tasks) && k < |tasks|
    ensures tasks[k].id in GraphOf(tasks) && GraphOf(tasks)[tasks[k].id] == tasks[k].dependsOn
    decreases |tasks|
  {
    if k < |tasks| - 1 {
      GraphAt(tasks[..|tasks| - 1], k);
    }
  }

  lemma {:induction false} GraphSize(tasks: seq<Node>)
    requires UniqueIds(tasks)
    ensures |GraphOf(tasks).Keys| == |tasks|
    decreases |tasks|
  {
    if tasks != [] {
      var before, last := tasks[..|tasks| - 1], tasks[|tasks| - 1];
      GraphSize(before);
      GraphKeys(before, last.id);
      assert GraphOf(tasks).Keys == GraphOf(before).Keys + {last.id};
    }
  }

  // ---------- orders and cycles ----------

  ghost predicate Before(g: Graph, order: seq<string>, k: nat)
    requires k < |order|
  {
    order[k] in g && forall d | d in g[order[k]] :: d in order[..k]
  }

  /** A permutation of all ids in which every dependency comes first. */
  ghost predicate IsTopological(g: Graph, order: seq<string>) {
    && Distinct(order) && Elements(order) == g.Keys
    && forall k | 0 <= k < |order| :: Before(g, order, k)
  }

  /** Each task of the cycle depends on the next one, and the last one on the first. */
  ghost predicate IsCycle(g: Graph, c: seq<string>) {
    && c != []
    && (forall i | 0 <= i < |c| :: c[i] in g)
    && (forall i | 0 <= i < |c| - 1 :: c[i + 1] in g[c[i]])
    && c[0] in g[c[|c| - 1]]
  }

  ghost predicate HasCycle(g: Graph) {
    exists c :: IsCycle(g, c)
  }

  /** The tasks that may come next once `done` is placed. */
  ghost function Available(g: Graph, done: set<string>): set<string> {
    set x | x in g && x !in done && forall d | d in g[x] :: d in done
  }

  /** Every position takes the smallest id available there. */
  ghost predicate IsGreedy(g: Graph, order: seq<string>) {
    forall k | 0 <= k < |order| :: IsLeast(order[k], Available(g, Elements(order[..k])))
  }

  ghost predicate LexLeq(a: seq<string>, b: seq<string>) {
    a == b || exists k :: 0 <= k < |a| && k < |b| && a[..k] == b[..k] && Less(a[k], b[k])
  }

  /** The lexicographically smallest of all topological orders. */
  ghost predicate IsLeastTopological(g: Graph, order: seq<string>) {
    IsTopological(g, order) && forall t | IsTopological(g, t) :: LexLeq(order, t)
  }

  lemma {:induction false} DistinctCardinality(s: seq<string>)
    requires Distinct(s)
    ensures |Elements(s)| == |s|
    decreases |s|
  {
    if s == [] {
      assert Elements(s) == {};
    } else {
      var rest := s[..|s| - 1];
      DistinctCardinality(rest);
      assert Elements(s) == Elements(rest) + {s[|s| - 1]};
      assert s[|s| - 1] !in rest;
    }
  }

  lemma GreedyIsDistinct(g: Graph, order: seq<string>)
    requires IsGreedy(g, order)
    ensures Distinct(order) && Elements(order) <= g.Keys
    ensures forall k | 0 <= k < |order| :: Before(g, order, k)
  {
    forall k | 0 <= k < |order| ensures Before(g, order, k) && order[k] !in order[..k] {
      assert order[k] in Available(g, Elements(order[..k]));
    }
    forall i, j | 0 <= i < j < |order| ensures order[i] != order[j] {
      assert order[j] !in order[..j];
      assert order[i] == order[..j][i];
    }
  }

  lemma GreedyCompleteIsTopological(g: Graph, order: seq<string>)
    requires IsGreedy(g, order) && |order| == |g.Keys|
    ensures IsTopological(g, order)
  {
    GreedyIsDistinct(g, order);
    DistinctCardinality(order);
    SubsetOfSameSize(Elements(order), g.Keys);
  }

  lemma SubsetOfSameSize(a: set<string>, b: set<string>)
    requires a <= b && |a| == |b|
    ensures a == b
  {
    assert b == a + (b - a);
    assert |b| == |a| + |b - a|;
  }

  /** Where another topological order first differs, its choice was available, so the greedy choice is smaller. */
  lemma {:induction false} GreedyIsLeast(g: Graph, order: seq<string>, t: seq<string>, k: nat)
    requires IsGreedy(g, order) && IsTopological(g, order) && IsTopological(g, t)
    requires k <= |order| && k <= |t| && order[..k] == t[..k]
    ensures LexLeq(order, t)
    decreases |order| - k
  {
    DistinctCardinality(order);
    DistinctCardinality(t);
    if k == |order| {
      assert order == order[..k] && t == t[..k];
    } else {
      assert Before(g, t, k);
      assert t[k] !in t[..k];
      assert t[k] in Available(g, Elements(order[..k]));
      if order[k] == t[k] {
        assert order[..k + 1] == order[..k] + [order[k]] && t[..k + 1] == t[..k] + [t[k]];
        GreedyIsLeast(g, order, t, k + 1);
      }
    }
  }

  lemma GreedyIsLeastTopological(g: Graph, order: seq<string>)
    requires IsGreedy(g, order) && |order| == |g.Keys|
    ensures IsLeastTopological(g, order)
  {
    GreedyCompleteIsTopological(g, order);
    forall t | IsTopological(g, t) ensures LexLeq(order, t) {
      GreedyIsLeast(g, order, t, 0);
    }
  }

  /** The least order is unique, so it specifies the result completely. */
  lemma LeastTopologicalIsUnique(g: Graph, a: seq<string>, b: seq<string>)
    requires IsLeastTopological(g, a) && IsLeastTopological(g, b)
    ensures a == b
  {
    if a != b {
      var i :| 0 <= i < |a| && i < |b| && a[..i] == b[..i] && Less(a[i], b[i]);
      var j :| 0 <= j < |a| && j < |b| && b[..j] == a[..j] && Less(b[j], a[j]);
      if i < j {
        assert b[..j][i] == a[..j][i];
        LessIrreflexive(a[i]);
      } else if j < i {
        assert b[..i][j] == a[..i][j];
        LessIrreflexive(a[j]);
      } else {
        LessAsymmetric(a[i], b[i]);
      }
    }
  }

  /** Task `x` waits for a task of `rest`. */
  ghost predicate Waits(g: Graph, rest: set<string>, x: string) {
    x in g && exists d :: d in g[x] && d in rest
  }

  /** Each task of the walk depends on the next one. */
  ghost predicate IsWalk(g: Graph, walk: seq<string>) {
    forall i | 0 <= i < |walk| - 1 :: walk[i] in g && walk[i + 1] in g[walk[i]]
  }

  lemma SuffixIsCycle(g: Graph, walk: seq<string>, k: nat)
    requires IsWalk(g, walk) && k < |walk| && walk[|walk| - 1] in g && walk[k] in g[walk[|walk| - 1]]
    ensures IsCycle(g, walk[k..])
  {
    var c := walk[k..];
    forall i | 0 <= i < |c| ensures c[i] in g && (i < |c| - 1 ==> c[i + 1] in g[c[i]]) {
      assert c[i] == walk[k + i];
    }
  }

  lemma ExtendWalk(g: Graph, rest: set<string>, walk: seq<string>, d: string)
    requires IsWalk(g, walk) && walk != [] && walk[|walk| - 1] in g && d in g[walk[|walk| - 1]]
    requires Distinct(walk) && Elements(walk) <= rest && d in rest && d !in walk
    ensures IsWalk(g, walk + [d]) && Distinct(walk + [d]) && Elements(walk + [d]) <= rest
    ensures |walk| + 1 <= |rest|
  {
    var longer := walk + [d];
    assert Elements(longer) == Elements(walk) + {d};
    DistinctCardinality(longer);
    SubsetSize(Elements(longer), rest);
  }

  /** Following unfinished dependencies inside a finite set must close a cycle. */
  lemma {:induction false} WalkClosesCycle(g: Graph, rest: set<string>, walk: seq<string>) returns (c: seq<string>)
    requires forall x | x in rest :: Waits(g, rest, x)
    requires walk != [] && Distinct(walk) && Elements(walk) <= rest && IsWalk(g, walk)
    ensures IsCycle(g, c)
    decreases |rest| - |walk|
  {
    var last := walk[|walk| - 1];
    assert last in Elements(walk);
    assert Waits(g, rest, last);
    var d :| d in g[last] && d in rest;
    if d in walk {
      var k :| 0 <= k < |walk| && walk[k] == d;
      SuffixIsCycle(g, walk, k);
      c := walk[k..];
    } else {
      ExtendWalk(g, rest, walk, d);
      c := WalkClosesCycle(g, rest, walk + [d]);
    }
  }

  lemma SubsetSize(a: set<string>, b: set<string>)
    requires a <= b
    ensures |a| <= |b|
  {
    assert b == a + (b - a);
    assert |b| == |a| + |b - a|;
  }

  /** If nothing is available before everything is placed, the graph has a cycle. */
  lemma StuckMeansCycle(g: Graph, done: set<string>)
    requires Closed(g) && done <= g.Keys && done != g.Keys && Available(g, done) == {}
    ensures HasCycle(g)
  {
    var rest := g.Keys - done;
    forall x | x in rest ensures Waits(g, rest, x) {
      assert x !in Available(g, done);
      var d :| d in g[x] && d !in done;
      assert d in rest;
    }
    assert g.Keys == done + rest;
    var x :| x in rest;
    assert Elements([x]) == {x};
    var c := WalkClosesCycle(g, rest, [x]);
  }

  ghost function Position(order: seq<string>, x: string): nat
    requires x in order
    ensures Position(order, x) < |order| && order[Position(order, x)] == x
  {
    var k :| 0 <= k < |order| && order[k] == x;
    k
  }

  lemma DependencyIsEarlier(g: Graph, order: seq<string>, x: string, d: string)
    requires IsTopological(g, order) && x in g && d in g[x]
    ensures x in order && d in order && Position(order, d) < Position(order, x)
  {
    assert x in Elements(order);
    var k := Position(order, x);
    assert Before(g, order, k);
    var j :| 0 <= j < k && order[..k][j] == d;
    assert order[j] == d;
    assert Position(order, d) == j;
  }

  lemma {:induction false} CycleDescends(g: Graph, order: seq<string>, c: seq<string>, i: nat)
    requires IsTopological(g, order) && IsCycle(g, c) && i < |c|
    ensures c[0] in order && c[i] in order && Position(order, c[i]) + i <= Position(order, c[0])
    decreases i
  {
    assert c[0] in Elements(order) && c[i] in Elements(order);
    if i > 0 {
      CycleDescends(g, order, c, i - 1);
      DependencyIsEarlier(g, order, c[i - 1], c[i]);
    }
  }

  /** A graph with a cycle has no topological order. */
  lemma CycleHasNoOrder(g: Graph, order: seq<string>, c: seq<string>)
    requires IsCycle(g, c)
    ensures !IsTopological(g, order)
  {
    if IsTopological(g, order) {
      CycleDescends(g, order, c, |c| - 1);
      DependencyIsEarlier(g, order, c[|c| - 1], c[0]);
    }
  }
}
