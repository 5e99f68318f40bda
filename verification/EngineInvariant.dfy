/** What every step of a workflow run keeps. */
module EngineInvariant {
  import opened Types
  import opened Engine
  import Dag

  // ---------- The invariant ----------

  ghost predicate TaskLimits(cfg: Config, maxDepth: int, t: Task) {
    && t.depth < maxDepth
    && t.retryCount <= RetryLimit(cfg, t)
    && (t.status == Recovering ==> t.retryCount < RetryLimit(cfg, t))
  }

  ghost predicate Limits(cfg: Config, s: State) {
    && 1 <= s.wf.taskCount <= s.wf.maxTasks
    && |s.tasks| == s.wf.taskCount + s.strays
    && (forall id :: id in s.tasks ==> id < s.nextId)
    && (forall id :: id in s.tasks ==> TaskLimits(cfg, s.wf.maxDepth, s.tasks[id]))
  }

  // The two workflow records differ at most in spend, and only during a batch.
  ghost predicate Books(s: State) {
    && s.stored.(budgetSpent := s.wf.budgetSpent) == s.wf
    && (!s.phase.InBatch? ==> s.stored == s.wf)
  }

  ghost predicate ChannelOk(s: State, k: int)
    requires s.phase.InBatch? && 0 <= k < |s.phase.channel|
  {
    var (id, result) := s.phase.channel[k];
    id in s.tasks && s.tasks[id].status == if result.Fails? then Failed else Completed
  }

  ghost predicate BatchOk(s: State) {
    if s.phase.InBatch? then
      && (forall id :: id in s.phase.waiting ==> id in s.tasks && Queued(s.tasks[id]) && DepsMet(s.tasks, s.tasks[id]))
      && (forall id :: id in s.phase.running ==> id in s.tasks)
      && (forall id :: id in s.tasks ==> (s.tasks[id].status == Running <==> id in s.phase.running))
      && (forall k :: 0 <= k < |s.phase.channel| ==> ChannelOk(s, k))
      && (forall j, k :: 0 <= j < k < |s.phase.channel| ==> s.phase.channel[j].0 != s.phase.channel[k].0)
    else
      forall id :: id in s.tasks ==> s.tasks[id].status != Running
  }

  // A task that has been started had, and still has, all of its dependencies completed.
  ghost predicate DepsDone(s: State) {
    forall id :: id in s.tasks && s.tasks[id].status in {Running, Completed, Failed, Recovering} ==>
      DepsMet(s.tasks, s.tasks[id])
  }

  ghost predicate InChannel(s: State, id: Id) {
    s.phase.InBatch? && exists k :: 0 <= k < |s.phase.channel| && s.phase.channel[k].0 == id
  }

  /** d is a diagnostician created for x whose decision has not been handled: not yet run,
      still running, answered but not yet received, or failed. */
  ghost predicate OpenFor(s: State, d: Id, x: Id) {
    && d in s.tasks && s.tasks[d].original == Some(x)
    && (s.tasks[d].status in {Pending, Blocked, Running, Failed} || InChannel(s, d))
  }

  ghost predicate HasDiagnostician(s: State, x: Id) {
    exists d :: OpenFor(s, d, x)
  }

  ghost predicate DiagnosticianShape(tasks: map<Id, Task>, d: Id)
    requires d in tasks
  {
    var t := tasks[d];
    t.original.Some? ==>
      && t.role == Diagnostician && t.dependsOn == []
      && t.original.value in tasks && t.original.value != d
      && t.depth == tasks[t.original.value].depth + 1
  }

  // Recovering tasks and open diagnosticians are in one-to-one correspondence.
  ghost predicate Links(s: State) {
    && (forall x {:trigger HasDiagnostician(s, x)} :: x in s.tasks && s.tasks[x].status == Recovering ==> HasDiagnostician(s, x))
    && (forall d, x :: OpenFor(s, d, x) ==> x in s.tasks && s.tasks[x].status == Recovering)
    && (forall d, e, x :: OpenFor(s, d, x) && OpenFor(s, e, x) ==> d == e)
    && (forall x :: x in s.tasks && s.tasks[x].status == Recovering ==> s.tasks[x].original.None?)
  }

  ghost predicate Shapes(s: State) {
    forall d :: d in s.tasks ==> DiagnosticianShape(s.tasks, d)
  }

  ghost predicate StartJustified(tasks: map<Id, Task>, log: seq<Event>, k: int)
    requires 0 <= k < |log|
  {
    log[k].Started? ==>
      log[k].id in tasks && forall d :: d in tasks[log[k].id].dependsOn ==> Finished(d) in log[..k]
  }

  ghost predicate LogOk(s: State) {
    && (forall k :: 0 <= k < |s.log| ==> StartJustified(s.tasks, s.log, k))
    && (forall id :: Finished(id) in s.log <==> IsCompleted(s.tasks, id))
    && (forall j, k :: 0 <= j < k < |s.log| && s.log[j].Finished? ==> s.log[k].id != s.log[j].id)
  }

  ghost predicate RankOk(tasks: map<Id, Task>, rank: map<Id, nat>) {
    forall id, d :: id in tasks && d in tasks[id].dependsOn && d in tasks ==>
      id in rank && d in rank && rank[d] < rank[id]
  }

  ghost predicate Ranked(s: State) {
    && (forall id, d :: id in s.tasks && d in s.tasks[id].dependsOn ==> d < s.nextId)
    && exists rank :: RankOk(s.tasks, rank)
  }

  ghost predicate Inv(cfg: Config, s: State) {
    Tables(cfg, s) && Books(s) && BatchOk(s) && LogOk(s) && (s.phase.Done? || Links(s))
  }

  lemma InitialInv(cfg: Config, s: State)
    requires Initial(s)
    ensures Inv(cfg, s)
  {
    assert RankOk(s.tasks, map[]);
  }

  // ---------- What no step undoes ----------

  ghost predicate SameTask(t: Task, t': Task) {
    && t'.dependsOn == t.dependsOn && t'.original == t.original
    && t'.depth == t.depth && t'.role == t.role && t'.priority == t.priority
  }

  ghost predicate Grows(tasks: map<Id, Task>, tasks': map<Id, Task>) {
    && (forall id :: id in tasks ==> id in tasks' && SameTask(tasks[id], tasks'[id]))
    && (forall id :: IsCompleted(tasks, id) ==> IsCompleted(tasks', id))
  }

  // ---------- One task changes ----------

  ghost predicate OneChange(s: State, s': State, id: Id) {
    && id in s.tasks && s'.tasks.Keys == s.tasks.Keys
    && (forall x :: x in s.tasks && x != id ==> s'.tasks[x] == s.tasks[x])
    && SameTask(s.tasks[id], s'.tasks[id])
    && !IsCompleted(s.tasks, id)
    && s'.nextId == s.nextId && s'.strays == s.strays
    && s'.wf.taskCount == s.wf.taskCount && s'.wf.maxTasks == s.wf.maxTasks && s'.wf.maxDepth == s.wf.maxDepth
  }

  lemma OneChangeKeepsLimits(cfg: Config, s: State, s': State, id: Id)
    requires Limits(cfg, s) && OneChange(s, s', id) && TaskLimits(cfg, s.wf.maxDepth, s'.tasks[id])
    ensures Limits(cfg, s')
  {
    assert |s.tasks.Keys| == |s.tasks| && |s'.tasks.Keys| == |s'.tasks|;
  }

  lemma OneChangeKeepsDeps(s: State, s': State, id: Id)
    requires DepsDone(s) && OneChange(s, s', id)
    requires s'.tasks[id].status in {Running, Completed, Failed, Recovering} ==> DepsMet(s.tasks, s.tasks[id])
    ensures Grows(s.tasks, s'.tasks) && DepsDone(s')
  {
    forall x | x in s'.tasks && s'.tasks[x].status in {Running, Completed, Failed, Recovering}
      ensures DepsMet(s'.tasks, s'.tasks[x])
    {
      assert DepsMet(s.tasks, s.tasks[x]);
    }
  }

  lemma OneChangeKeepsShapes(s: State, s': State, id: Id)
    requires Shapes(s) && OneChange(s, s', id)
    ensures Shapes(s')
  {
    forall d | d in s'.tasks ensures DiagnosticianShape(s'.tasks, d) {
      assert DiagnosticianShape(s.tasks, d);
    }
  }

  lemma OneChangeKeepsRank(s: State, s': State, id: Id)
    requires Ranked(s) && OneChange(s, s', id)
    ensures Ranked(s')
  {
    assert forall x :: x in s'.tasks ==> x in s.tasks && s'.tasks[x].dependsOn == s.tasks[x].dependsOn;
    hide OneChange;
    var rank :| RankOk(s.tasks, rank);
    SameDepsRank(s.tasks, s'.tasks, rank);
  }

  lemma SameDepsRank(tasks: map<Id, Task>, tasks': map<Id, Task>, rank: map<Id, nat>)
    requires RankOk(tasks, rank)
    requires forall x :: x in tasks' ==> x in tasks && tasks'[x].dependsOn == tasks[x].dependsOn
    ensures RankOk(tasks', rank)
  {
    forall id, d | id in tasks' && d in tasks'[id].dependsOn && d in tasks'
      ensures id in rank && d in rank && rank[d] < rank[id]
    {
      assert d in tasks[id].dependsOn;
    }
  }

  ghost predicate Tables(cfg: Config, s: State) {
    Limits(cfg, s) && DepsDone(s) && Shapes(s) && Ranked(s)
  }

  lemma OneChangeKeeps(cfg: Config, s: State, s': State, id: Id)
    requires Tables(cfg, s) && OneChange(s, s', id) && TaskLimits(cfg, s.wf.maxDepth, s'.tasks[id])
    requires s'.tasks[id].status in {Running, Completed, Failed, Recovering} ==> DepsMet(s.tasks, s.tasks[id])
    ensures Tables(cfg, s') && Grows(s.tasks, s'.tasks)
  {
    OneChangeKeepsLimits(cfg, s, s', id);
    OneChangeKeepsDeps(s, s', id);
    OneChangeKeepsShapes(s, s', id);
    OneChangeKeepsRank(s, s', id);
  }

  lemma LogKept(s: State, s': State)
    requires LogOk(s) && Grows(s.tasks, s'.tasks) && s.log == s'.log
    requires forall id :: IsCompleted(s'.tasks, id) ==> IsCompleted(s.tasks, id)
    ensures LogOk(s')
  {
    forall k | 0 <= k < |s'.log| ensures StartJustified(s'.tasks, s'.log, k) {
      assert StartJustified(s.tasks, s.log, k);
    }
  }

  lemma LogGrows(s: State, s': State, e: Event)
    requires LogOk(s) && Grows(s.tasks, s'.tasks) && s'.log == s.log + [e]
    requires !IsCompleted(s.tasks, e.id)
    requires e.Started? ==> e.id in s.tasks && DepsMet(s.tasks, s.tasks[e.id])
    requires forall id :: IsCompleted(s'.tasks, id) <==> IsCompleted(s.tasks, id) || e == Finished(id)
    ensures LogOk(s')
  {
    var n := |s.log|;
    forall k | 0 <= k < |s'.log| ensures StartJustified(s'.tasks, s'.log, k) {
      if k < n {
        assert StartJustified(s.tasks, s.log, k);
        assert s'.log[..k] == s.log[..k];
      } else {
        assert s'.log[..n] == s.log;
      }
    }
    forall j, k | 0 <= j < k < |s'.log| && s'.log[j].Finished? ensures s'.log[k].id != s'.log[j].id {
      if k == n {
        assert Finished(s.log[j].id) in s.log;
      }
    }
  }

  // ---------- Steps of one execution ----------

  lemma StartKeepsBatch(s: State, id: Id)
    requires BatchOk(s) && s.phase.InBatch? && id in s.phase.waiting
    ensures BatchOk(StartTask(s, id))
  {
    var s' := StartTask(s, id);
    forall k | 0 <= k < |s'.phase.channel| ensures ChannelOk(s', k) { assert ChannelOk(s, k); }
  }

  lemma StartKeeps(cfg: Config, s: State, id: Id)
    requires Inv(cfg, s) && Enabled(cfg, s, Start(id))
    ensures Inv(cfg, StartTask(s, id)) && Grows(s.tasks, StartTask(s, id).tasks)
  {
    var s' := StartTask(s, id);
    OneChangeKeeps(cfg, s, s', id);
    LogGrows(s, s', Started(id));
    StartKeepsBatch(s, id);
    StatusMoveKeepsLinks(s, s', id);
  }

  lemma FinishKeepsBatch(s: State, id: Id, result: AgentResult)
    requires BatchOk(s) && s.phase.InBatch? && id in s.phase.running && id in s.tasks
    ensures BatchOk(FinishTask(s, id, result))
  {
    var s' := FinishTask(s, id, result);
    forall k | 0 <= k < |s'.phase.channel| ensures ChannelOk(s', k) {
      if k < |s.phase.channel| { assert ChannelOk(s, k); }
    }
    forall j, k | 0 <= j < k < |s'.phase.channel| ensures s'.phase.channel[j].0 != s'.phase.channel[k].0 {
      assert ChannelOk(s, j);
    }
  }

  lemma RunningTask(cfg: Config, s: State, id: Id)
    requires Tables(cfg, s) && BatchOk(s) && s.phase.InBatch? && id in s.phase.running
    ensures id in s.tasks && id < s.nextId && s.tasks[id].status == Running
    ensures DepsMet(s.tasks, s.tasks[id]) && TaskLimits(cfg, s.wf.maxDepth, s.tasks[id])
  {
    hide Shapes;
    hide Ranked;
  }

  lemma FinishCompletes(s: State, id: Id, result: AgentResult)
    requires s.phase.InBatch? && id in s.tasks && s.tasks[id].status == Running
    ensures var s' := FinishTask(s, id, result);
      !IsCompleted(s.tasks, id) && forall x :: IsCompleted(s'.tasks, x) <==> IsCompleted(s.tasks, x) || (x == id && !result.Fails?)
  {
  }

  lemma FinishKeeps(cfg: Config, s: State, id: Id, result: AgentResult)
    requires Inv(cfg, s) && Enabled(cfg, s, Finish(id, result))
    ensures Inv(cfg, FinishTask(s, id, result)) && Grows(s.tasks, FinishTask(s, id, result).tasks)
  {
    hide Links;
    hide Tables;
    hide BatchOk;
    hide LogOk;
    hide IsCompleted;
    hide DepsMet;
    var s' := FinishTask(s, id, result);
    RunningTask(cfg, s, id);
    FinishCompletes(s, id, result);
    OneChangeKeeps(cfg, s, s', id);
    LogGrows(s, s', if result.Fails? then Errored(id) else Finished(id));
    FinishKeepsBatch(s, id, result);
    assert Links(s') by {
      assert s'.phase.channel[|s.phase.channel|].0 == id;
      StatusMoveKeepsLinks(s, s', id);
    }
  }

  // Moving one task among the statuses of an open diagnostician leaves the links alone.
  lemma StatusMoveKeepsLinks(s: State, s': State, id: Id)
    requires Links(s) && id in s.tasks && s'.tasks.Keys == s.tasks.Keys && s.phase.InBatch? && s'.phase.InBatch?
    requires forall x :: x in s.tasks && x != id ==> s'.tasks[x] == s.tasks[x]
    requires s'.tasks[id].original == s.tasks[id].original
    requires s.phase.channel <= s'.phase.channel
    requires forall k :: |s.phase.channel| <= k < |s'.phase.channel| ==> s'.phase.channel[k].0 == id
    requires s.tasks[id].status in {Pending, Blocked, Running}
    requires s'.tasks[id].status in {Pending, Blocked, Running, Failed} || (s'.tasks[id].status == Completed && InChannel(s', id))
    ensures Links(s')
  {
    forall d, x ensures OpenFor(s', d, x) <==> OpenFor(s, d, x) {
      if d != id {
        assert InChannel(s', d) <==> InChannel(s, d) by {
          if InChannel(s, d) {
            var k :| 0 <= k < |s.phase.channel| && s.phase.channel[k].0 == d;
            assert s'.phase.channel[k].0 == d;
          }
        }
      }
    }
    forall x | x in s'.tasks && s'.tasks[x].status == Recovering ensures HasDiagnostician(s', x) {
      assert HasDiagnostician(s, x);
      var d :| OpenFor(s, d, x);
      assert OpenFor(s', d, x);
    }
  }

  // ---------- Receiving a result ----------

  ghost function Pop(s: State): State
    requires s.phase.InBatch? && |s.phase.channel| > 0
  {
    s.(phase := s.phase.(channel := s.phase.channel[1..]))
  }

  lemma PopKeepsBatch(s: State)
    requires BatchOk(s) && s.phase.InBatch? && |s.phase.channel| > 0
    ensures BatchOk(Pop(s))
    ensures !InChannel(Pop(s), s.phase.channel[0].0)
    ensures forall d :: InChannel(s, d) <==> d == s.phase.channel[0].0 || InChannel(Pop(s), d)
  {
    var s' := Pop(s);
    forall k | 0 <= k < |s'.phase.channel| ensures ChannelOk(s', k) { assert ChannelOk(s, k + 1); }
    forall d ensures InChannel(s, d) <==> d == s.phase.channel[0].0 || InChannel(s', d) {
      if InChannel(s', d) {
        var k :| 0 <= k < |s'.phase.channel| && s'.phase.channel[k].0 == d;
        assert s.phase.channel[k + 1].0 == d;
      }
      if InChannel(s, d) && d != s.phase.channel[0].0 {
        var k :| 0 <= k < |s.phase.channel| && s.phase.channel[k].0 == d;
        assert s'.phase.channel[k - 1].0 == d;
      }
    }
  }

  // Without a decision to handle, taking a result off the channel changes no link.
  lemma PopKeeps(cfg: Config, s: State)
    requires Inv(cfg, s) && Enabled(cfg, s, Receive)
    requires s.phase.channel[0].1.Fails? || s.tasks[s.phase.channel[0].0].original.None?
    ensures Inv(cfg, Pop(s))
  {
    var s' := Pop(s);
    PopKeepsBatch(s);
    assert ChannelOk(s, 0);
    forall d, x ensures OpenFor(s', d, x) <==> OpenFor(s, d, x) {
    }
    forall x | x in s'.tasks && s'.tasks[x].status == Recovering ensures HasDiagnostician(s', x) {
      assert HasDiagnostician(s, x);
      var d :| OpenFor(s, d, x);
      assert OpenFor(s', d, x);
    }
    LogKept(s, s');
  }

  // ---------- Planner output ----------

  // A store grown by new tasks only.
  ghost predicate OnlyAdds(tasks: map<Id, Task>, tasks': map<Id, Task>, base: Id) {
    && (forall id :: id in tasks ==> id < base && id in tasks' && tasks'[id] == tasks[id])
    && (forall id :: id in tasks' && id !in tasks ==> base <= id && NewTask(tasks'[id]))
  }

  ghost predicate NewTask(t: Task) {
    t.status == Pending && t.retryCount == 0
  }

  lemma OneMore(tasks: map<Id, Task>, r: map<Id, Task>, base: Id, id: Id, t: Task)
    requires OnlyAdds(tasks, r, base) && NewTask(t) && base <= id && forall x :: x in r ==> x < id
    ensures var r' := r[id := t]; OnlyAdds(tasks, r', base) && |r'| == |r| + 1 && forall x :: x in r' ==> x < id + 1
  {
    assert r[id := t].Keys == r.Keys + {id};
  }

  lemma {:induction false} AddPlannedAdds(tasks: map<Id, Task>, specs: seq<TaskSpec>, count: nat, base: Id, planner: Id, depth: nat)
    requires count <= |specs|
    requires forall id :: id in tasks ==> id < base
    ensures var r := AddPlanned(tasks, specs, count, base, planner, depth);
      OnlyAdds(tasks, r, base) && |r| == |tasks| + count && forall id :: id in r ==> id < base + count
  {
    if count > 0 {
      AddPlannedAdds(tasks, specs, count - 1, base, planner, depth);
      OneMore(tasks, AddPlanned(tasks, specs, count - 1, base, planner, depth), base, base + count - 1,
              PlannedTask(specs[count - 1], base, planner, depth));
    }
  }

  // Task `id` of the store was created from its spec of the plan drawn at `base`.
  ghost predicate FromPlan(tasks: map<Id, Task>, specs: seq<TaskSpec>, base: Id, planner: Id, depth: nat, id: Id)
    requires id in tasks
  {
    base <= id < base + |specs| && tasks[id] == PlannedTask(specs[id - base], base, planner, depth)
  }

  lemma {:induction false} AddPlannedContent(tasks: map<Id, Task>, specs: seq<TaskSpec>, count: nat, base: Id, planner: Id, depth: nat, id: Id)
    requires count <= |specs|
    requires id in AddPlanned(tasks, specs, count, base, planner, depth) && id !in tasks
    ensures FromPlan(AddPlanned(tasks, specs, count, base, planner, depth), specs, base, planner, depth, id)
  {
    if id != base + count - 1 {
      AddPlannedContent(tasks, specs, count - 1, base, planner, depth, id);
    }
  }

  lemma AddingKeepsLog(s: State, s': State)
    requires LogOk(s) && s'.log == s.log && OnlyAdds(s.tasks, s'.tasks, s.nextId)
    ensures LogOk(s') && Grows(s.tasks, s'.tasks)
  {
    LogKept(s, s');
  }

  lemma AddingKeepsDeps(s: State, s': State)
    requires DepsDone(s) && OnlyAdds(s.tasks, s'.tasks, s.nextId)
    ensures DepsDone(s')
  {
    forall x | x in s'.tasks && s'.tasks[x].status in {Running, Completed, Failed, Recovering}
      ensures DepsMet(s'.tasks, s'.tasks[x])
    {
      assert DepsMet(s.tasks, s.tasks[x]);
    }
  }

  lemma AddingKeepsBatch(s: State, s': State)
    requires BatchOk(s) && s'.phase == s.phase && OnlyAdds(s.tasks, s'.tasks, s.nextId)
    ensures BatchOk(s')
  {
    if s.phase.InBatch? {
      forall k | 0 <= k < |s'.phase.channel| ensures ChannelOk(s', k) { assert ChannelOk(s, k); }
    }
  }

  ghost predicate PlanAdded(s: State, s': State, specs: seq<TaskSpec>, planner: Id, depth: nat) {
    && OnlyAdds(s.tasks, s'.tasks, s.nextId) && s'.nextId == s.nextId + |specs|
    && forall id :: id in s'.tasks && id !in s.tasks ==> FromPlan(s'.tasks, specs, s.nextId, planner, depth, id)
  }

  // The new tasks of a plan rank by the plan; no old task can depend on them.
  lemma PlanKeepsRank(s: State, s': State, specs: seq<TaskSpec>, planner: Id, depth: nat)
    requires Ranked(s) && Dag.ValidPlan(specs) && PlanAdded(s, s', specs, planner, depth)
    ensures Ranked(s')
  {
    var base := s.nextId;
    var planRank := Dag.AcyclicHasRank(specs, []);
    var rank :| RankOk(s.tasks, rank);
    var rank': map<Id, nat> := map id: Id | id in s'.tasks :: NewRank(rank, planRank, base, id);
    forall id, d | id in s'.tasks && d in s'.tasks[id].dependsOn ensures d < s'.nextId {
      PlanDependency(s, s', specs, planner, depth, rank, planRank, id, d);
    }
    forall id, d | id in s'.tasks && d in s'.tasks[id].dependsOn && d in s'.tasks ensures rank'[d] < rank'[id] {
      PlanDependency(s, s', specs, planner, depth, rank, planRank, id, d);
    }
    RankWitness(s', rank');
  }

  lemma RankWitness(s: State, rank: map<Id, nat>)
    requires forall id, d :: id in s.tasks && d in s.tasks[id].dependsOn ==> d < s.nextId
    requires RankOk(s.tasks, rank)
    ensures Ranked(s)
  {
  }

  lemma PlanDependency(s: State, s': State, specs: seq<TaskSpec>, planner: Id, depth: nat,
                       rank: map<Id, nat>, planRank: seq<nat>, id: Id, d: Id)
    requires Ranked(s) && RankOk(s.tasks, rank) && PlanAdded(s, s', specs, planner, depth)
    requires Dag.WellFormed(specs) && Dag.TopologicalRank(specs, planRank)
    requires id in s'.tasks && d in s'.tasks[id].dependsOn
    ensures d < s'.nextId
    ensures d in s'.tasks ==> NewRank(rank, planRank, s.nextId, d) < NewRank(rank, planRank, s.nextId, id)
  {
    if id in s.tasks {
      assert d < s.nextId;
    } else {
      assert FromPlan(s'.tasks, specs, s.nextId, planner, depth, id);
      PlannedDep(specs, id - s.nextId, s.nextId, d);
    }
  }

  ghost function NewRank(rank: map<Id, nat>, planRank: seq<nat>, base: Id, id: Id): nat {
    if id < base then (if id in rank then rank[id] else 0)
    else if id - base < |planRank| then planRank[id - base]
    else 0
  }

  // A dependency of a planned task is an earlier-ranked member of the same plan.
  lemma PlannedDep(specs: seq<TaskSpec>, i: nat, base: Id, d: Id)
    requires Dag.WellFormed(specs) && i < |specs| && d in ResolvedDeps(specs[i].dependsOn, base)
    ensures base <= d < base + |specs| && Dag.Edge(specs, i, d - base)
  {
    var deps := specs[i].dependsOn;
    var k :| 0 <= k < |deps| && ResolvedDeps(deps, base)[k] == d;
    assert Dag.Edge(specs, i, deps[k]) && Dag.GoodEdge(specs, i, deps[k]);
  }

  lemma AddingKeepsLinks(s: State, s': State)
    requires Links(s) && s'.phase == s.phase && OnlyAdds(s.tasks, s'.tasks, s.nextId)
    requires forall id :: id in s'.tasks && id !in s.tasks ==> s'.tasks[id].original.None?
    ensures Links(s')
  {
    forall d, x ensures OpenFor(s', d, x) <==> OpenFor(s, d, x) {
    }
    forall x | x in s'.tasks && s'.tasks[x].status == Recovering ensures HasDiagnostician(s', x) {
      assert HasDiagnostician(s, x);
      var d :| OpenFor(s, d, x);
      assert OpenFor(s', d, x);
    }
  }

  lemma AddingKeepsShapes(s: State, s': State)
    requires Shapes(s) && OnlyAdds(s.tasks, s'.tasks, s.nextId)
    requires forall id :: id in s'.tasks && id !in s.tasks ==> DiagnosticianShape(s'.tasks, id)
    ensures Shapes(s')
  {
    forall d | d in s'.tasks ensures DiagnosticianShape(s'.tasks, d) {
      if d in s.tasks { assert DiagnosticianShape(s.tasks, d); }
    }
  }

  lemma PlanKeepsLimits(cfg: Config, s: State, s': State, specs: seq<TaskSpec>, planner: Id, depth: nat)
    requires Limits(cfg, s) && PlanAdded(s, s', specs, planner, depth) && depth < s.wf.maxDepth
    requires |s'.tasks| == s'.wf.taskCount + s'.strays && 1 <= s'.wf.taskCount <= s'.wf.maxTasks
    requires s'.wf.maxDepth == s.wf.maxDepth
    ensures Limits(cfg, s')
  {
    forall id | id in s'.tasks ensures id < s'.nextId && TaskLimits(cfg, s'.wf.maxDepth, s'.tasks[id]) {
      if id !in s.tasks {
        assert FromPlan(s'.tasks, specs, s.nextId, planner, depth, id);
      }
    }
  }

  lemma PlanKeepsTables(cfg: Config, s: State, planner: Id, plan: Option<seq<TaskSpec>>)
    requires Tables(cfg, s) && planner in s.tasks && PlanAccepted(s, planner, plan)
    ensures Tables(cfg, HandlePlan(s, planner, plan))
    ensures OnlyAdds(s.tasks, HandlePlan(s, planner, plan).tasks, s.nextId)
    ensures var s' := HandlePlan(s, planner, plan);
      forall id :: id in s'.tasks && id !in s.tasks ==> s'.tasks[id].original.None?
  {
    var s' := HandlePlan(s, planner, plan);
    var depth := s.tasks[planner].depth + 1;
    AddPlannedAdds(s.tasks, plan.value, ValidPrefix(plan.value), s.nextId, planner, depth);
    forall id | id in s'.tasks && id !in s.tasks ensures FromPlan(s'.tasks, plan.value, s.nextId, planner, depth, id) {
      AddPlannedContent(s.tasks, plan.value, ValidPrefix(plan.value), s.nextId, planner, depth, id);
    }
    PlanKeepsRank(s, s', plan.value, planner, depth);
    AddingKeepsDeps(s, s');
    AddingKeepsShapes(s, s');
    PlanKeepsLimits(cfg, s, s', plan.value, planner, depth);
  }

  lemma PlanKeeps(cfg: Config, s: State, planner: Id, plan: Option<seq<TaskSpec>>)
    requires Inv(cfg, s) && s.phase.InBatch? && planner in s.tasks
    ensures Inv(cfg, HandlePlan(s, planner, plan)) && Grows(s.tasks, HandlePlan(s, planner, plan).tasks)
  {
    if PlanAccepted(s, planner, plan) {
      var s' := HandlePlan(s, planner, plan);
      PlanKeepsTables(cfg, s, planner, plan);
      AddingKeepsLog(s, s');
      AddingKeepsBatch(s, s');
      AddingKeepsLinks(s, s');
    }
  }

  // ---------- Decisions ----------

  // Handling a decision closes the diagnostician and its original at the same time.
  lemma DiagnosisKeepsLinks(s: State, s': State, d: Id, x: Id)
    requires Links(s) && BatchOk(s) && s.phase.InBatch? && |s.phase.channel| > 0 && s.phase.channel[0].0 == d
    requires OpenFor(s, d, x) && s.tasks[d].status == Completed && x != d
    requires OneChange(s, s', x) && s'.tasks[x].status != Recovering && s'.phase == Pop(s).phase
    ensures Links(s')
  {
    PopKeepsBatch(s);
    forall e, y ensures OpenFor(s', e, y) <==> OpenFor(s, e, y) && y != x {
      assert InChannel(s', e) <==> InChannel(Pop(s), e);
      if e == x {
        assert s.tasks[x].status == Recovering && s.tasks[x].original.None?;
      } else if y == x && OpenFor(s, e, x) {
        assert e == d;
      }
    }
    forall y | y in s'.tasks && s'.tasks[y].status == Recovering ensures HasDiagnostician(s', y) {
      assert HasDiagnostician(s, y);
      var e :| OpenFor(s, e, y);
      assert OpenFor(s', e, y);
    }
  }

  lemma DiagnosisKeepsBatch(s: State, s': State, x: Id)
    requires BatchOk(s) && s.phase.InBatch? && |s.phase.channel| > 0
    requires OneChange(s, s', x) && s.tasks[x].status == Recovering
    requires s'.tasks[x].status in {Pending, Failed, Skipped} && s'.phase == Pop(s).phase
    ensures BatchOk(s')
  {
    PopKeepsBatch(s);
    forall k | 0 <= k < |s'.phase.channel| ensures ChannelOk(s', k) { assert ChannelOk(Pop(s), k); }
  }

  // The decision moves the original task, which was recovering, and nothing else.
  lemma DiagnosisChangesOriginal(cfg: Config, s: State, d: Id, decision: Option<Decision>)
    requires d in s.tasks && s.tasks[d].original.Some? && s.tasks[d].original.value in s.tasks
    requires s.tasks[s.tasks[d].original.value].status == Recovering
    ensures var s' := HandleDiagnosis(cfg, s, d, decision);
      var x := s.tasks[d].original.value;
      && OneChange(s, s', x) && s' == s.(tasks := s'.tasks)
      && s'.tasks[x].status in {Pending, Failed, Skipped}
      && s'.tasks[x].retryCount <= s.tasks[x].retryCount + 1 && s'.tasks[x].maxRetries == s.tasks[x].maxRetries
  {
  }

  lemma DiagnosisKeeps(cfg: Config, s: State)
    requires Inv(cfg, s) && Enabled(cfg, s, Receive)
    requires !s.phase.channel[0].1.Fails? && s.tasks[s.phase.channel[0].0].original.Some?
    ensures var (d, result) := s.phase.channel[0];
      var s' := HandleDiagnosis(cfg, Pop(s), d, result.decision);
      Inv(cfg, s') && Grows(s.tasks, s'.tasks)
  {
    var (d, result) := s.phase.channel[0];
    assert ChannelOk(s, 0) && DiagnosticianShape(s.tasks, d);
    var x := s.tasks[d].original.value;
    assert OpenFor(s, d, x) by { assert InChannel(s, d); }
    DiagnosisChangesOriginal(cfg, Pop(s), d, result.decision);
    ClosingKeeps(cfg, s, HandleDiagnosis(cfg, Pop(s), d, result.decision), d, x);
  }

  lemma ClosingKeeps(cfg: Config, s: State, s': State, d: Id, x: Id)
    requires Inv(cfg, s) && s.phase.InBatch? && |s.phase.channel| > 0 && s.phase.channel[0].0 == d
    requires OpenFor(s, d, x) && s.tasks[d].status == Completed && x != d
    requires OneChange(s, s', x) && s' == Pop(s).(tasks := s'.tasks)
    requires s'.tasks[x].status in {Pending, Failed, Skipped}
    requires s'.tasks[x].retryCount <= s.tasks[x].retryCount + 1 && s'.tasks[x].maxRetries == s.tasks[x].maxRetries
    ensures Inv(cfg, s') && Grows(s.tasks, s'.tasks)
  {
    OneChangeKeeps(cfg, s, s', x);
    LogKept(s, s');
    DiagnosisKeepsBatch(s, s', x);
    DiagnosisKeepsLinks(s, s', d, x);
  }

  // ReceiveResult by cases.
  ghost function Received(cfg: Config, s: State): State
    requires Enabled(cfg, s, Receive)
  {
    var (id, result) := s.phase.channel[0];
    if result.Fails? then Pop(s)
    else if s.tasks[id].role == Planner then Spend(HandlePlan(Pop(s), id, result.plan), result.cost)
    else if s.tasks[id].role == Diagnostician then Spend(HandleDiagnosis(cfg, Pop(s), id, result.decision), result.cost)
    else Spend(Pop(s), result.cost)
  }

  lemma ReceiveCases(cfg: Config, s: State)
    requires Enabled(cfg, s, Receive)
    ensures ReceiveResult(cfg, s) == Received(cfg, s)
  {
  }

  lemma ReceivePlan(cfg: Config, s: State, id: Id, result: AgentResult)
    requires Inv(cfg, s) && s.phase.InBatch? && id in s.tasks && result.Answers?
    ensures var s' := Spend(HandlePlan(s, id, result.plan), result.cost);
      Inv(cfg, s') && Grows(s.tasks, s'.tasks)
  {
    PlanKeeps(cfg, s, id, result.plan);
    SpendKeeps(cfg, HandlePlan(s, id, result.plan), result.cost);
  }

  lemma DiagnosisPhase(cfg: Config, s: State, d: Id, decision: Option<Decision>)
    requires d in s.tasks
    ensures HandleDiagnosis(cfg, s, d, decision).phase == s.phase
  {
  }

  lemma ReceiveDiagnosis(cfg: Config, s: State, s1: State)
    requires Inv(cfg, s) && Enabled(cfg, s, Receive)
    requires !s.phase.channel[0].1.Fails? && s.tasks[s.phase.channel[0].0].original.Some?
    requires s1 == HandleDiagnosis(cfg, Pop(s), s.phase.channel[0].0, s.phase.channel[0].1.decision)
    ensures Inv(cfg, Spend(s1, s.phase.channel[0].1.cost)) && Grows(s.tasks, s1.tasks)
  {
    hide Tables;
    hide Links;
    hide BatchOk;
    hide LogOk;
    DiagnosisKeeps(cfg, s);
    DiagnosisPhase(cfg, Pop(s), s.phase.channel[0].0, s.phase.channel[0].1.decision);
    hide HandleDiagnosis;
    SpendKeeps(cfg, s1, s.phase.channel[0].1.cost);
  }

  lemma ShapeOf(cfg: Config, s: State, id: Id)
    requires Tables(cfg, s) && id in s.tasks
    ensures DiagnosticianShape(s.tasks, id)
  {
  }

  lemma NoOriginal(cfg: Config, s: State, d: Id)
    requires d in s.tasks
    ensures s.tasks[d].original.None? ==> forall decision :: HandleDiagnosis(cfg, s, d, decision) == s
  {
  }

  lemma ReceivedKeeps(cfg: Config, s: State, s': State)
    requires Inv(cfg, s) && Enabled(cfg, s, Receive) && s' == Received(cfg, s)
    ensures Inv(cfg, s') && Grows(s.tasks, s'.tasks)
  {
    hide Tables;
    hide Links;
    hide BatchOk;
    hide LogOk;
    hide HandlePlan;
    hide HandleDiagnosis;
    var (id, result) := s.phase.channel[0];
    ShapeOf(cfg, s, id);
    NoOriginal(cfg, Pop(s), id);
    if !result.Fails? && s.tasks[id].original.Some? {
      ReceiveDiagnosis(cfg, s, HandleDiagnosis(cfg, Pop(s), id, result.decision));
    } else {
      PopKeeps(cfg, s);
      if !result.Fails? && s.tasks[id].role == Planner {
        ReceivePlan(cfg, Pop(s), id, result);
      } else if !result.Fails? {
        SpendKeeps(cfg, Pop(s), result.cost);
      }
    }
  }

  lemma ReceiveKeeps(cfg: Config, s: State)
    requires Inv(cfg, s) && Enabled(cfg, s, Receive)
    ensures Inv(cfg, ReceiveResult(cfg, s)) && Grows(s.tasks, ReceiveResult(cfg, s).tasks)
  {
    ReceiveCases(cfg, s);
    ReceivedKeeps(cfg, s, ReceiveResult(cfg, s));
  }

  ghost function Spend(s: State, cost: real): State {
    s.(wf := s.wf.(budgetSpent := s.wf.budgetSpent + cost))
  }

  lemma SpendKeeps(cfg: Config, s: State, cost: real)
    requires Inv(cfg, s) && s.phase.InBatch?
    ensures Inv(cfg, Spend(s, cost))
  {
    var s' := Spend(s, cost);
    assert BatchOk(s') by {
      forall k | 0 <= k < |s'.phase.channel| ensures ChannelOk(s', k) { assert ChannelOk(s, k); }
    }
    SamePlaceKeeps(cfg, s, s');
  }

  // Only the workflow records or an empty batch change.
  lemma SamePlaceKeeps(cfg: Config, s: State, s': State)
    requires Inv(cfg, s) && s'.tasks == s.tasks && s'.log == s.log && s'.nextId == s.nextId && s'.strays == s.strays
    requires s'.wf.taskCount == s.wf.taskCount && s'.wf.maxTasks == s.wf.maxTasks && s'.wf.maxDepth == s.wf.maxDepth
    requires Books(s') && BatchOk(s') && (s'.phase == s.phase || s'.phase.Done? || (!s.phase.Done? && forall d :: InChannel(s, d) == InChannel(s', d)))
    ensures Inv(cfg, s')
  {
    assert Ranked(s') by { var rank :| RankOk(s.tasks, rank); RankWitness(s', rank); }
    LogKept(s, s');
    if !s'.phase.Done? {
      forall d, x ensures OpenFor(s', d, x) <==> OpenFor(s, d, x) {
      }
      forall x | x in s'.tasks && s'.tasks[x].status == Recovering ensures HasDiagnostician(s', x) {
        assert HasDiagnostician(s, x);
        var d :| OpenFor(s, d, x);
        assert OpenFor(s', d, x);
      }
    }
  }

  // ---------- The loop head ----------

  lemma DispatchKeeps(cfg: Config, s: State, batch: seq<Id>)
    requires Inv(cfg, s) && Enabled(cfg, s, Dispatch(batch))
    ensures Inv(cfg, Apply(cfg, s, Dispatch(batch)))
  {
    var order :| BatchOf(cfg, s, order, batch);
    forall id | id in batch ensures id in ReadySet(s.tasks) { assert id in order; }
    assert BatchOk(Apply(cfg, s, Dispatch(batch)));
    SamePlaceKeeps(cfg, s, Apply(cfg, s, Dispatch(batch)));
  }

  lemma CloseKeeps(cfg: Config, s: State)
    requires Inv(cfg, s) && Enabled(cfg, s, EndBatch)
    ensures Inv(cfg, CloseBatch(s))
  {
    SamePlaceKeeps(cfg, s, CloseBatch(s));
  }

  lemma CancelKeepsLimits(cfg: Config, s: State)
    requires Limits(cfg, s)
    ensures Limits(cfg, CancelWorkflow(s)) && Grows(s.tasks, CancelWorkflow(s).tasks)
  {
    var s' := CancelWorkflow(s);
    assert s'.tasks.Keys == s.tasks.Keys;
    assert |s.tasks.Keys| == |s.tasks| && |s'.tasks.Keys| == |s'.tasks|;
  }

  lemma CancelKeepsShapes(s: State)
    requires Shapes(s)
    ensures Shapes(CancelWorkflow(s))
  {
    var s' := CancelWorkflow(s);
    forall d | d in s'.tasks ensures DiagnosticianShape(s'.tasks, d) { assert DiagnosticianShape(s.tasks, d); }
  }

  lemma CancelKeepsDeps(s: State)
    requires DepsDone(s)
    ensures DepsDone(CancelWorkflow(s))
  {
    var s' := CancelWorkflow(s);
    forall x | x in s'.tasks && s'.tasks[x].status in {Running, Completed, Failed, Recovering}
      ensures DepsMet(s'.tasks, s'.tasks[x])
    {
      assert DepsMet(s.tasks, s.tasks[x]);
    }
  }

  lemma CancelKeepsRank(s: State)
    requires Ranked(s)
    ensures Ranked(CancelWorkflow(s))
  {
    var rank :| RankOk(s.tasks, rank);
    RankWitness(CancelWorkflow(s), rank);
  }

  lemma CancelKeeps(cfg: Config, s: State)
    requires Inv(cfg, s) && s.phase.AtHead?
    ensures Inv(cfg, CancelWorkflow(s)) && Grows(s.tasks, CancelWorkflow(s).tasks)
  {
    hide Limits;
    hide Shapes;
    hide DepsDone;
    hide Ranked;
    hide BatchOk;
    hide LogOk;
    hide Links;
    hide Grows;
    hide SkipQueued;
    CancelKeepsLimits(cfg, s);
    CancelKeepsShapes(s);
    CancelKeepsDeps(s);
    CancelKeepsRank(s);
    CancelKeepsBatch(s);
    CancelKeepsLog(s);
  }

  lemma CancelKeepsBatch(s: State)
    requires BatchOk(s) && s.phase.AtHead?
    ensures BatchOk(CancelWorkflow(s))
  {
  }

  lemma CancelKeepsLog(s: State)
    requires LogOk(s) && Grows(s.tasks, CancelWorkflow(s).tasks)
    ensures LogOk(CancelWorkflow(s))
  {
    var s' := CancelWorkflow(s);
    assert forall id :: IsCompleted(s'.tasks, id) ==> IsCompleted(s.tasks, id);
    hide LogOk;
    hide Grows;
    LogKept(s, s');
  }

  // ---------- Recovery ----------

  // The failed task marked recovering, before its diagnostician exists.
  ghost function Marked(s: State, id: Id): State
    requires id in s.tasks
  {
    s.(tasks := SetStatus(s.tasks, id, Recovering))
  }

  lemma AddDiagnostician(cfg: Config, s: State, s': State, id: Id)
    requires Tables(cfg, s) && id in s.tasks
    requires s.tasks[id].depth + 1 < s.wf.maxDepth && s.wf.taskCount + 1 <= s.wf.maxTasks
    requires s'.tasks == s.tasks[s.nextId := DiagnosticianFor(s.tasks[id], id)] && s'.nextId == s.nextId + 1
    requires s'.wf == s.wf.(taskCount := s.wf.taskCount + 1) && s'.strays == s.strays
    ensures Tables(cfg, s') && OnlyAdds(s.tasks, s'.tasks, s.nextId)
  {
    AddDiagnosticianLimits(cfg, s, s', id);
    AddDiagnosticianRank(s, s', id);
    assert DiagnosticianShape(s'.tasks, s.nextId);
    hide Limits;
    hide Ranked;
    AddingKeepsDeps(s, s');
    AddingKeepsShapes(s, s');
  }

  lemma AddDiagnosticianLimits(cfg: Config, s: State, s': State, id: Id)
    requires Limits(cfg, s) && id in s.tasks
    requires s.tasks[id].depth + 1 < s.wf.maxDepth && s.wf.taskCount + 1 <= s.wf.maxTasks
    requires s'.tasks == s.tasks[s.nextId := DiagnosticianFor(s.tasks[id], id)] && s'.nextId == s.nextId + 1
    requires s'.wf == s.wf.(taskCount := s.wf.taskCount + 1) && s'.strays == s.strays
    ensures Limits(cfg, s') && OnlyAdds(s.tasks, s'.tasks, s.nextId)
  {
    assert s'.tasks.Keys == s.tasks.Keys + {s.nextId};
  }

  lemma AddDiagnosticianRank(s: State, s': State, id: Id)
    requires Ranked(s) && id in s.tasks
    requires s'.tasks == s.tasks[s.nextId := DiagnosticianFor(s.tasks[id], id)] && s'.nextId == s.nextId + 1
    ensures Ranked(s')
  {
    var rank :| RankOk(s.tasks, rank);
    RankWitness(s', rank);
  }

  lemma MarkKeeps(cfg: Config, s: State, id: Id)
    requires Tables(cfg, s) && id in s.tasks
    requires s.tasks[id].status == Failed && s.tasks[id].retryCount < RetryLimit(cfg, s.tasks[id])
    ensures Tables(cfg, Marked(s, id)) && Grows(s.tasks, Marked(s, id).tasks)
  {
    OneChangeKeeps(cfg, s, Marked(s, id), id);
  }

  lemma RecoverOneTables(cfg: Config, s: State, id: Id, s': State)
    requires Tables(cfg, s) && id in s.tasks && Eligible(cfg, s, id) && s' == RecoverOne(cfg, s, id)
    ensures Tables(cfg, s')
  {
    hide RecoverySpent;
    hide Tables;
    MarkKeeps(cfg, s, id);
    AddDiagnostician(cfg, Marked(s, id), s', id);
  }

  lemma RecoverOneLinks(cfg: Config, s: State, id: Id)
    requires Links(s) && s.phase.AtHead? && id in s.tasks && Eligible(cfg, s, id) && s.tasks[id].original.None?
    requires forall x :: x in s.tasks ==> x < s.nextId
    ensures Links(RecoverOne(cfg, s, id))
  {
    var s' := RecoverOne(cfg, s, id);
    var diag := s.nextId;
    forall d, x ensures OpenFor(s', d, x) <==> OpenFor(s, d, x) || (d == diag && x == id) {
    }
    assert OpenFor(s', diag, id);
    forall x | x in s'.tasks && s'.tasks[x].status == Recovering ensures HasDiagnostician(s', x) {
      if x != id {
        assert HasDiagnostician(s, x);
        var d :| OpenFor(s, d, x);
        assert OpenFor(s', d, x);
      }
    }
  }

  lemma RecoverOneFrame(cfg: Config, s: State, id: Id)
    requires id in s.tasks && s.phase.AtHead? && BatchOk(s) && Books(s)
    requires forall x :: x in s.tasks ==> x < s.nextId
    ensures var s' := RecoverOne(cfg, s, id);
      && Grows(s.tasks, s'.tasks) && s'.phase.AtHead? && s'.log == s.log && BatchOk(s') && Books(s')
      && (forall x :: IsCompleted(s'.tasks, x) ==> IsCompleted(s.tasks, x))
      && (forall x :: x in s.tasks && x != id ==> s'.tasks[x] == s.tasks[x])
  {
  }

  lemma RecoverOneKeeps(cfg: Config, s: State, id: Id)
    requires Inv(cfg, s) && s.phase.AtHead? && id in s.tasks && s.tasks[id].original.None?
    ensures var s' := RecoverOne(cfg, s, id);
      && Inv(cfg, s') && s'.phase.AtHead? && Grows(s.tasks, s'.tasks)
      && (forall x :: x in s.tasks && x != id ==> s'.tasks[x] == s.tasks[x])
  {
    RecoverOneFrame(cfg, s, id);
    if Eligible(cfg, s, id) {
      var s' := RecoverOne(cfg, s, id);
      RecoverOneTables(cfg, s, id, s');
      RecoverOneLinks(cfg, s, id);
      LogKept(s, s');
    }
  }

  lemma {:induction false} RecoverAllKeeps(cfg: Config, s: State, order: seq<Id>)
    requires Inv(cfg, s) && s.phase.AtHead? && NoDuplicates(order)
    requires forall id :: id in order ==> id in s.tasks && s.tasks[id].original.None?
    ensures var s' := RecoverAll(cfg, s, order);
      Inv(cfg, s') && s'.phase.AtHead? && Grows(s.tasks, s'.tasks)
    decreases |order|
  {
    if order != [] {
      var s1 := RecoverOne(cfg, s, order[0]);
      RecoverOneKeeps(cfg, s, order[0]);
      RecoverAllKeeps(cfg, s1, order[1..]);
      GrowsTransitive(s.tasks, s1.tasks, RecoverAll(cfg, s, order).tasks);
    }
  }

  lemma GrowsTransitive(a: map<Id, Task>, b: map<Id, Task>, c: map<Id, Task>)
    requires Grows(a, b) && Grows(b, c)
    ensures Grows(a, c)
  {
  }

  // When nothing is recovering, no failed task is a diagnostician of another task.
  lemma QuietFailuresAreOriginals(s: State)
    requires Links(s) && forall x :: x in s.tasks ==> s.tasks[x].status != Recovering
    ensures forall id :: id in s.tasks && s.tasks[id].status == Failed ==> s.tasks[id].original.None?
  {
    forall id | id in s.tasks && s.tasks[id].status == Failed ensures s.tasks[id].original.None? {
      if s.tasks[id].original.Some? {
        assert OpenFor(s, id, s.tasks[id].original.value);
      }
    }
  }

  lemma RecoverKeeps(cfg: Config, s: State, order: seq<Id>)
    requires Inv(cfg, s) && Enabled(cfg, s, Recover(order))
    ensures Inv(cfg, RecoverAll(cfg, s, order)) && Grows(s.tasks, RecoverAll(cfg, s, order).tasks)
  {
    forall x | x in s.tasks ensures s.tasks[x].status != Recovering {
      assert x !in WithStatus(s.tasks, Recovering);
    }
    QuietFailuresAreOriginals(s);
    RecoverAllKeeps(cfg, s, order);
  }

  // ---------- Every step, every run ----------

  /** Every step keeps the invariant, forgets no task, and leaves completed tasks completed. */
  lemma StepKeeps(cfg: Config, s: State, step: Step)
    requires Inv(cfg, s) && Enabled(cfg, s, step)
    ensures Inv(cfg, Apply(cfg, s, step)) && Grows(s.tasks, Apply(cfg, s, step).tasks)
  {
    match step
    case Cancel => CancelKeeps(cfg, s);
    case Wait =>
    case Dispatch(batch) => DispatchKeeps(cfg, s, batch);
    case Start(id) => StartKeeps(cfg, s, id);
    case Finish(id, result) => FinishKeeps(cfg, s, id, result);
    case Receive => ReceiveKeeps(cfg, s);
    case EndBatch => CloseKeeps(cfg, s);
    case Recover(order) => RecoverKeeps(cfg, s, order);
    case Conclude => SamePlaceKeeps(cfg, s, FinishWorkflow(s, Verdict(s.tasks)));
  }

  lemma {:induction false} RunKeeps(cfg: Config, states: seq<State>, steps: seq<Step>, i: nat)
    requires IsRun(cfg, states, steps) && i < |states|
    ensures Inv(cfg, states[i])
  {
    if i == 0 {
      InitialInv(cfg, states[0]);
    } else {
      RunKeeps(cfg, states, steps, i - 1);
      assert StepTaken(cfg, states[i - 1], steps[i - 1], states[i - 1 + 1]);
      StepKeeps(cfg, states[i - 1], steps[i - 1]);
    }
  }
}
