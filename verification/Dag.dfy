/** Validation of a plan's dependency graph by a three-colour depth-first search. */
module Dag {
  import opened Types

  // ---------- What a valid plan is ----------

  ghost predicate Edge(specs: seq<TaskSpec>, i: int, j: int) {
    0 <= i < |specs| && j in specs[i].dependsOn
  }

  ghost predicate GoodEdge(specs: seq<TaskSpec>, i: int, j: int) {
    0 <= j < |specs| && j != i
  }

  ghost predicate WellFormed(specs: seq<TaskSpec>) {
    forall i, j :: Edge(specs, i, j) ==> GoodEdge(specs, i, j)
  }

  // A walk along dependency edges.
  ghost predicate Walk(specs: seq<TaskSpec>, p: seq<int>) {
    forall k :: 0 <= k < |p| - 1 ==> Edge(specs, p[k], p[k + 1])
  }

  ghost predicate Cycle(specs: seq<TaskSpec>, p: seq<int>) {
    |p| >= 2 && p[0] == p[|p| - 1] && Walk(specs, p)
  }

  ghost predicate Acyclic(specs: seq<TaskSpec>) {
    forall p :: !Cycle(specs, p)
  }

  ghost predicate ValidPlan(specs: seq<TaskSpec>) {
    WellFormed(specs) && Acyclic(specs)
  }

  // Every dependency has a strictly smaller rank than the task that needs it.
  ghost predicate TopologicalRank(specs: seq<TaskSpec>, rank: seq<nat>) {
    |rank| == |specs| &&
    forall i, j :: Edge(specs, i, j) && 0 <= j < |specs| ==> rank[j] < rank[i]
  }

  // ---------- Ranks exclude cycles ----------

  lemma {:induction false} RankFallsAlongWalk(specs: seq<TaskSpec>, rank: seq<nat>, p: seq<int>)
    requires WellFormed(specs) && TopologicalRank(specs, rank)
    requires |p| >= 2 && Walk(specs, p)
    ensures 0 <= p[0] < |rank| && 0 <= p[|p| - 1] < |rank|
    ensures rank[p[|p| - 1]] < rank[p[0]]
  {
    assert Edge(specs, p[0], p[1]) && GoodEdge(specs, p[0], p[1]);
    if |p| > 2 {
      var q := p[1..];
      forall k | 0 <= k < |q| - 1 ensures Edge(specs, q[k], q[k + 1]) {
        assert q[k] == p[k + 1] && q[k + 1] == p[k + 1 + 1];
      }
      RankFallsAlongWalk(specs, rank, q);
    }
  }

  lemma RankExcludesCycles(specs: seq<TaskSpec>, rank: seq<nat>)
    requires WellFormed(specs) && TopologicalRank(specs, rank)
    ensures Acyclic(specs)
  {
    forall p ensures !Cycle(specs, p) {
      if Cycle(specs, p) {
        RankFallsAlongWalk(specs, rank, p);
      }
    }
  }

  // ---------- The state of the search ----------

  const WHITE := 0
  const GRAY := 1
  const BLACK := 2

  /** `stack` is the walk of gray nodes; `done` lists the black nodes in the order in
      which they were finished, each after all of its dependencies. */
  ghost predicate SearchState(specs: seq<TaskSpec>, colors: seq<int>, stack: seq<int>, done: seq<int>) {
    && |colors| == |specs|
    && (forall v :: 0 <= v < |colors| ==> colors[v] in {WHITE, GRAY, BLACK})
    && (forall v :: 0 <= v < |colors| ==> (colors[v] == GRAY <==> v in stack))
    && (forall v :: 0 <= v < |colors| ==> (colors[v] == BLACK <==> v in done))
    && (forall v :: v in stack ==> 0 <= v < |colors|)
    && (forall k :: 0 <= k < |done| ==> 0 <= done[k] < |colors|)
    && Walk(specs, stack)
    && FinishedInOrder(specs, done)
  }

  ghost predicate FinishedInOrder(specs: seq<TaskSpec>, done: seq<int>) {
    forall k, j :: 0 <= k < |done| && Edge(specs, done[k], j) ==> j in done[..k]
  }

  ghost function Whites(colors: seq<int>): set<int> {
    set v | 0 <= v < |colors| && colors[v] == WHITE
  }

  function FirstIndex(s: seq<int>, x: int): (k: nat)
    requires x in s
    ensures k < |s| && s[k] == x
    ensures forall m :: 0 <= m < k ==> s[m] != x
  {
    if s[0] == x then 0 else FirstIndex(s[1..], x) + 1
  }

  lemma WhitesShrink(before: seq<int>, after: seq<int>, node: int)
    requires |before| == |after|
    requires 0 <= node < |before| && before[node] == WHITE && after[node] != WHITE
    requires forall v :: 0 <= v < |before| && after[v] == WHITE ==> before[v] == WHITE
    ensures |Whites(after)| < |Whites(before)|
  {
    assert Whites(after) <= Whites(before) - {node};
    StrictSubsetIsSmaller(Whites(after), Whites(before), node);
  }

  lemma StrictSubsetIsSmaller(a: set<int>, b: set<int>, x: int)
    requires a <= b - {x} && x in b
    ensures |a| < |b|
  {
    var rest := b - {x};
    assert |rest| == |b| - 1;
    assert rest == a + (rest - a);
  }

  // When every node is finished, the position in `done` is a topological rank.
  lemma FinishOrderIsRank(specs: seq<TaskSpec>, done: seq<int>) returns (rank: seq<nat>)
    requires FinishedInOrder(specs, done)
    requires forall v :: 0 <= v < |specs| ==> v in done
    ensures TopologicalRank(specs, rank)
  {
    rank := seq(|specs|, v requires 0 <= v < |specs| => FirstIndex(done, v));
    forall i, j | Edge(specs, i, j) && 0 <= j < |specs| ensures rank[j] < rank[i] {
      var k := rank[i];
      assert done[k] == i && j in done[..k];
      var m :| 0 <= m < k && done[m] == j;
    }
  }

  // A gray dependency closes a walk that is a cycle through the edge just followed.
  lemma GrayHitIsCycle(specs: seq<TaskSpec>, stack: seq<int>, dep: int) returns (p: seq<int>)
    requires |stack| > 0 && Walk(specs, stack)
    requires Edge(specs, stack[|stack| - 1], dep) && dep in stack
    ensures Cycle(specs, p) && |p| >= 2 && p[|p| - 2] == stack[|stack| - 1] && p[|p| - 1] == dep
  {
    var k :| 0 <= k < |stack| && stack[k] == dep;
    p := stack[k..] + [dep];
    forall m | 0 <= m < |p| - 1 ensures Edge(specs, p[m], p[m + 1]) {
      if m + 1 < |p| - 1 {
        assert p[m] == stack[k + m] && p[m + 1] == stack[k + m + 1];
      }
    }
  }

  // ---------- Acyclic plans have a rank ----------

  ghost function Unfinished(n: nat, done: seq<int>): set<int> {
    set v | 0 <= v < n && v !in done
  }

  /** The converse of RankExcludesCycles: finish the tasks one at a time; if none can be
      finished, a walk through the unfinished ones must meet itself. */
  lemma {:induction false} AcyclicHasRank(specs: seq<TaskSpec>, done: seq<int>) returns (rank: seq<nat>)
    requires ValidPlan(specs) && FinishedInOrder(specs, done)
    ensures TopologicalRank(specs, rank)
    decreases |Unfinished(|specs|, done)|
  {
    var rest := Unfinished(|specs|, done);
    if rest == {} {
      assert forall v :: 0 <= v < |specs| && v !in done ==> v in rest;
      rank := FinishOrderIsRank(specs, done);
    } else if v :| v in rest && forall j :: Edge(specs, v, j) ==> j in done {
      FinishNode(specs, done, v);
      StrictSubsetIsSmaller(Unfinished(|specs|, done + [v]), rest, v);
      rank := AcyclicHasRank(specs, done + [v]);
    } else {
      var v :| v in rest;
      forall v | v in rest ensures Continues(specs, rest, v) {
        var j :| Edge(specs, v, j) && j !in done;
        assert GoodEdge(specs, v, j);
      }
      var q := StuckHasCycle(specs, rest, v);
      rank := [];
    }
  }

  lemma StuckHasCycle(specs: seq<TaskSpec>, rest: set<int>, v: int) returns (q: seq<int>)
    requires v in rest
    requires forall v {:trigger Continues(specs, rest, v)} :: v in rest ==> Continues(specs, rest, v)
    ensures Cycle(specs, q)
  {
    var p := WalkInside(specs, rest, v, |rest| + 1);
    var i, j := Repeats(p, rest);
    q := p[i..j + 1];
    forall k | 0 <= k < |q| - 1 ensures Edge(specs, q[k], q[k + 1]) {
      assert q[k] == p[i + k] && q[k + 1] == p[i + k + 1];
    }
  }

  ghost predicate Continues(specs: seq<TaskSpec>, rest: set<int>, v: int) {
    exists j :: Edge(specs, v, j) && j in rest
  }

  lemma {:induction false} WalkInside(specs: seq<TaskSpec>, rest: set<int>, v: int, n: nat) returns (p: seq<int>)
    requires v in rest && n > 0
    requires forall v {:trigger Continues(specs, rest, v)} :: v in rest ==> Continues(specs, rest, v)
    ensures |p| == n && Walk(specs, p) && forall k :: 0 <= k < |p| ==> p[k] in rest
  {
    if n == 1 {
      p := [v];
    } else {
      var q := WalkInside(specs, rest, v, n - 1);
      assert Continues(specs, rest, q[n - 2]);
      var j :| Edge(specs, q[n - 2], j) && j in rest;
      p := q + [j];
      forall k | 0 <= k < |p| - 1 ensures Edge(specs, p[k], p[k + 1]) {
        if k < n - 2 { assert p[k] == q[k] && p[k + 1] == q[k + 1]; }
      }
    }
  }

  // More visits than places: some place is visited twice.
  lemma {:induction false} Repeats(p: seq<int>, places: set<int>) returns (i: int, j: int)
    requires |p| > |places| && forall k :: 0 <= k < |p| ==> p[k] in places
    ensures 0 <= i < j < |p| && p[i] == p[j]
    decreases |p|
  {
    if k :| 1 <= k < |p| && p[k] == p[0] {
      i, j := 0, k;
    } else {
      var q := p[1..];
      forall k | 0 <= k < |q| ensures q[k] in places - {p[0]} { assert q[k] == p[k + 1]; }
      i, j := Repeats(q, places - {p[0]});
      i, j := i + 1, j + 1;
    }
  }

  // ---------- The code ----------

  datatype DagError = Ok | OutOfRange(task: int, dep: int) | SelfDependency(task: int) | CycleFound(task: int, dep: int)

  // Some cycle follows the edge from task to dep.
  ghost predicate CycleThrough(specs: seq<TaskSpec>, task: int, dep: int) {
    exists p :: Cycle(specs, p) && p[|p| - 2] == task && p[|p| - 1] == dep
  }

  /** Returns Ok exactly for the valid plans, with a topological rank; every error names an
      edge that is out of range, a self-dependency, or the closing edge of a real cycle. */
  method ValidateDAG(specs: seq<TaskSpec>) returns (err: DagError, ghost rank: seq<nat>)
    ensures err.Ok? <==> ValidPlan(specs)
    ensures err.Ok? ==> TopologicalRank(specs, rank)
    ensures err.OutOfRange? ==> Edge(specs, err.task, err.dep) && !(0 <= err.dep < |specs|)
    ensures err.SelfDependency? ==> Edge(specs, err.task, err.task)
    ensures FirstFault(specs, err)
    ensures err.CycleFound? ==> WellFormed(specs) && CycleThrough(specs, err.task, err.dep)
  {
    rank := [];
    err := CheckIndices(specs);
    if !err.Ok? {
      return;
    }
    var colors := new int[|specs|](_ => WHITE);
    ghost var done: seq<int> := [];
    for i := 0 to |specs|
      invariant err.Ok? && SearchState(specs, colors[..], [], done)
      invariant forall v :: 0 <= v < i ==> colors[v] == BLACK
    {
      if colors[i] == WHITE {
        err, done := Dfs(specs, colors, i, [], done);
        if !err.Ok? {
          return;
        }
      }
    }
    rank := FinishOrderIsRank(specs, done);
    RankExcludesCycles(specs, rank);
  }

  // An error in an index names the first fault of all, in the order of the tasks and of their dependencies.
  ghost predicate FirstFault(specs: seq<TaskSpec>, err: DagError) {
    match err
    case OutOfRange(i, d) => 0 <= i < |specs| && d != i && exists k :: FaultAt(specs, i, k) && specs[i].dependsOn[k] == d
    case SelfDependency(i) => 0 <= i < |specs| && exists k :: FaultAt(specs, i, k) && specs[i].dependsOn[k] == i
    case _ => forall i, k :: 0 <= i < |specs| && 0 <= k < |specs[i].dependsOn| ==> Sound(specs, i, specs[i].dependsOn[k])
  }

  ghost predicate Sound(specs: seq<TaskSpec>, i: int, d: int) {
    0 <= d < |specs| && d != i
  }

  ghost predicate FaultAt(specs: seq<TaskSpec>, i: nat, k: int)
    requires i < |specs|
  {
    && 0 <= k < |specs[i].dependsOn| && !Sound(specs, i, specs[i].dependsOn[k])
    && (forall m :: 0 <= m < k ==> Sound(specs, i, specs[i].dependsOn[m]))
    && forall a, m :: 0 <= a < i && 0 <= m < |specs[a].dependsOn| ==> Sound(specs, a, specs[a].dependsOn[m])
  }

  method CheckIndices(specs: seq<TaskSpec>) returns (err: DagError)
    ensures err.Ok? <==> WellFormed(specs)
    ensures err.OutOfRange? ==> Edge(specs, err.task, err.dep) && !(0 <= err.dep < |specs|)
    ensures err.SelfDependency? ==> Edge(specs, err.task, err.task)
    ensures FirstFault(specs, err)
    ensures !err.CycleFound?
  {
    for i := 0 to |specs|
      invariant forall a, b :: a < i && Edge(specs, a, b) ==> GoodEdge(specs, a, b)
      invariant forall a, m :: 0 <= a < i && 0 <= m < |specs[a].dependsOn| ==> Sound(specs, a, specs[a].dependsOn[m])
    {
      var deps := specs[i].dependsOn;
      for k := 0 to |deps|
        invariant forall m :: 0 <= m < k ==> GoodEdge(specs, i, deps[m]) && Sound(specs, i, deps[m])
      {
        assert Edge(specs, i, deps[k]);
        if deps[k] < 0 || deps[k] >= |specs| {
          assert !GoodEdge(specs, i, deps[k]);
          assert FaultAt(specs, i, k);
          return OutOfRange(i, deps[k]);
        }
        if deps[k] == i {
          assert !GoodEdge(specs, i, deps[k]);
          assert FaultAt(specs, i, k);
          return SelfDependency(i);
        }
      }
    }
    err := Ok;
  }

  method Dfs(specs: seq<TaskSpec>, colors: array<int>, node: int, ghost stack: seq<int>, ghost done0: seq<int>)
      returns (err: DagError, ghost done: seq<int>)
    requires WellFormed(specs)
    requires SearchState(specs, colors[..], stack, done0)
    requires 0 <= node < |specs| && colors[node] == WHITE
    requires stack != [] ==> Edge(specs, stack[|stack| - 1], node)
    modifies colors
    ensures err.Ok? || (err.CycleFound? && CycleThrough(specs, err.task, err.dep))
    ensures err.Ok? ==> SearchState(specs, colors[..], stack, done) && done0 <= done && colors[node] == BLACK
    ensures forall v :: 0 <= v < |specs| && colors.Length == |specs| && old(colors[v]) != WHITE ==> colors[v] != WHITE
    decreases |Whites(colors[..])|
  {
    colors[node] := GRAY;
    done := done0;
    ghost var path := stack + [node];
    var deps := specs[node].dependsOn;
    assert SearchState(specs, colors[..], path, done);
    assert |Whites(colors[..])| < |Whites(old(colors[..]))| by {
      WhitesShrink(old(colors[..]), colors[..], node);
    }
    for k := 0 to |deps|
      invariant SearchState(specs, colors[..], path, done)
      invariant done0 <= done
      invariant forall m :: 0 <= m < k ==> deps[m] in done
      invariant forall v :: 0 <= v < |specs| && old(colors[v]) != WHITE ==> colors[v] != WHITE
      invariant colors[node] == GRAY
      invariant |Whites(colors[..])| < |Whites(old(colors[..]))|
    {
      var dep := deps[k];
      assert Edge(specs, node, dep) && GoodEdge(specs, node, dep);
      if colors[dep] == GRAY {
        ghost var p := GrayHitIsCycle(specs, path, dep);
        return CycleFound(node, dep), done;
      } else if colors[dep] == WHITE {
        ghost var before := colors[..];
        err, done := Dfs(specs, colors, dep, path, done);
        if !err.Ok? {
          return;
        }
        assert |Whites(colors[..])| < |Whites(before)| by {
          WhitesShrink(before, colors[..], dep);
        }
      }
    }
    colors[node] := BLACK;
    FinishNode(specs, done, node);
    done := done + [node];
    err := Ok;
  }

  lemma FinishNode(specs: seq<TaskSpec>, done: seq<int>, node: int)
    requires FinishedInOrder(specs, done)
    requires forall j :: Edge(specs, node, j) ==> j in done
    ensures FinishedInOrder(specs, done + [node])
  {
    var all := done + [node];
    forall k, j | 0 <= k < |all| && Edge(specs, all[k], j) ensures j in all[..k] {
      assert all[..k] == done[..k];
    }
  }

  // ---------- From plan indices to task ids ----------

  /** Each task with dependencies gets the ids of the tasks its indices name, in order. */
  method ResolveDependencies(specs: seq<TaskSpec>, taskIDs: seq<Id>) returns (deps: map<int, seq<Id>>)
    requires WellFormed(specs) && |taskIDs| == |specs|
    ensures forall i :: i in deps <==> 0 <= i < |specs| && specs[i].dependsOn != []
    ensures forall i :: i in deps ==> |deps[i]| == |specs[i].dependsOn|
    ensures forall i, j :: i in deps && 0 <= j < |deps[i]| ==>
      Edge(specs, i, specs[i].dependsOn[j]) && deps[i][j] == IdAt(taskIDs, specs[i].dependsOn[j])
    ensures forall i, j :: i in deps && 0 <= j < |deps[i]| ==>
      0 <= specs[i].dependsOn[j] < |taskIDs| && deps[i][j] == taskIDs[specs[i].dependsOn[j]]
  {
    deps := map[];
    for i := 0 to |specs|
      invariant forall k :: k in deps <==> 0 <= k < i && specs[k].dependsOn != []
      invariant forall k :: k in deps ==> |deps[k]| == |specs[k].dependsOn|
      invariant forall k, j :: k in deps && 0 <= j < |deps[k]| ==>
        Edge(specs, k, specs[k].dependsOn[j]) && deps[k][j] == IdAt(taskIDs, specs[k].dependsOn[j])
    {
      var indices := specs[i].dependsOn;
      if |indices| > 0 {
        var resolved := [];
        for j := 0 to |indices|
          invariant |resolved| == j
          invariant forall k :: 0 <= k < j ==> resolved[k] == IdAt(taskIDs, indices[k])
        {
          assert Edge(specs, i, indices[j]) && GoodEdge(specs, i, indices[j]);
          resolved := resolved + [taskIDs[indices[j]]];
        }
        deps := deps[i := resolved];
      }
    }
    forall i, j | i in deps && 0 <= j < |deps[i]|
      ensures 0 <= specs[i].dependsOn[j] < |taskIDs| && deps[i][j] == taskIDs[specs[i].dependsOn[j]]
    {
      assert Edge(specs, i, specs[i].dependsOn[j]) && GoodEdge(specs, i, specs[i].dependsOn[j]);
    }
  }

  function IdAt(ids: seq<Id>, i: int): Id {
    if 0 <= i < |ids| then ids[i] else 0
  }
}
